/** Batched reads that retry only what the provider could not serve yet
    (crates/livepeer-staker/src/current.rs, crates/livepeer-staker/src/pending.rs). A
    batch answers one result per request; the loops must come to the same as reading each
    request alone. */
module RetryLoops {
  import opened Wrappers

  const LAYER_STALE_RETRIES: nat := 3
  const EXACT_BATCH_SIZE: nat := 250

  type Request = int
  type Bytes = seq<int>

  /** One result of a batch. A failure of a whole batch counts as one of its requests failing. */
  datatype Outcome = Response(bytes: Bytes) | LayerStale | Failed

  /** What the provider answers a request in a given round. */
  type Provider = (nat, Request) -> Outcome

  /** Reading one request alone from a round on: ask again while the layer is stale, up to
      and including the last round. */
  function Read(p: Provider, req: Request, round: nat, last: nat): Outcome
    decreases if round <= last then last + 1 - round else 0
  {
    if round > last then LayerStale
    else if p(round, req).LayerStale? then Read(p, req, round + 1, last)
    else p(round, req)
  }

  /** The answer is the first that is not stale, if one comes by the last round. */
  lemma {:induction false} ReadIs(p: Provider, req: Request, round: nat, last: nat)
    ensures var o := Read(p, req, round, last);
      if o.LayerStale? then forall k | round <= k <= last :: p(k, req).LayerStale?
      else exists r :: round <= r <= last && p(r, req) == o && forall k | round <= k < r :: p(k, req).LayerStale?
    decreases if round <= last then last + 1 - round else 0
  {
    if round <= last {
      if p(round, req).LayerStale? {
        ReadIs(p, req, round + 1, last);
        var o := Read(p, req, round + 1, last);
        if !o.LayerStale? {
          var r :| round + 1 <= r <= last && p(r, req) == o && forall k | round + 1 <= k < r :: p(k, req).LayerStale?;
          assert round <= r <= last && p(r, req) == o && forall k | round <= k < r :: p(k, req).LayerStale?;
        }
      } else {
        assert round <= round <= last && p(round, req) == Read(p, req, round, last);
      }
    }
  }

  function Members(s: seq<int>): set<int> { set x | x in s }

  predicate Distinct(s: seq<int>) { forall i, j | 0 <= i < j < |s| :: s[i] != s[j] }

  // ---------------------------------------------------------------------------
  // Slots (current.rs)
  // ---------------------------------------------------------------------------

  predicate Resolvable(p: Provider, requests: seq<Request>) {
    forall i | 0 <= i < |requests| :: Read(p, requests[i], 0, 3).Response?
  }

  /** The provider is stale for the request in its first rounds. */
  predicate StaleUntil(p: Provider, req: Request, rounds: nat) {
    forall k: nat | k < rounds :: p(k, req).LayerStale?
  }

  /** During a round some slots are still to be read, some must be asked again in the next
      round, and every other slot holds its own request's answer. */
  ghost predicate Slots(p: Provider, requests: seq<Request>, responses: seq<Option<Bytes>>, left: set<int>,
                        again: set<int>, round: nat) {
    && |responses| == |requests| && left !! again
    && (forall i | i in left + again :: 0 <= i < |requests|)
    && forall i | 0 <= i < |requests| :: SlotRight(p, requests[i], responses[i], i in left, i in again, round)
  }

  predicate SlotRight(p: Provider, req: Request, response: Option<Bytes>, left: bool, again: bool, round: nat) {
    var truth := Read(p, req, 0, LAYER_STALE_RETRIES);
    if left then truth == Read(p, req, round, LAYER_STALE_RETRIES) && StaleUntil(p, req, round)
    else if again then truth == Read(p, req, round + 1, LAYER_STALE_RETRIES) && StaleUntil(p, req, round + 1)
    else response.Some? && truth == Response(response.value) && !StaleUntil(p, req, round + 1)
  }

  lemma MembersStep(s: seq<int>, k: nat)
    requires Distinct(s) && k < |s|
    ensures Members(s[k..]) == {s[k]} + Members(s[k + 1..]) && s[k] !in Members(s[k + 1..])
  {
    assert s[k..] == [s[k]] + s[k + 1..];
  }

  /** Reading one slot of the round. */
  lemma SlotRead(p: Provider, requests: seq<Request>, responses: seq<Option<Bytes>>, left: set<int>, again: set<int>,
                 round: nat, slot: int)
    requires Slots(p, requests, responses, left, again, round) && slot in left && round <= LAYER_STALE_RETRIES
    ensures 0 <= slot < |requests|
    ensures match p(round, requests[slot])
            case Response(bytes) => Slots(p, requests, responses[slot := Some(bytes)], left - {slot}, again, round)
            case LayerStale => Slots(p, requests, responses, left - {slot}, again + {slot}, round)
            case Failed => !Resolvable(p, requests)
  {
    assert SlotRight(p, requests[slot], responses[slot], true, false, round);
  }

  /** On success slot i holds the response to request i; it succeeds exactly when reading
      each request alone would; and it asks in as many rounds as the slowest request needs,
      at most four. */
  method BatchWithRetries(p: Provider, requests: seq<Request>) returns (r: Result<seq<Bytes>, ()>, rounds: nat)
    ensures r.Success? <==> Resolvable(p, requests)
    ensures r.Success? ==> |r.value| == |requests|
    ensures r.Success? ==>
      forall i | 0 <= i < |requests| :: Read(p, requests[i], 0, 3) == Response(r.value[i])
    ensures 1 <= rounds <= 4
    ensures rounds > 1 ==> exists i | 0 <= i < |requests| :: StaleUntil(p, requests[i], rounds - 1)
    ensures r.Success? ==> forall i | 0 <= i < |requests| :: !StaleUntil(p, requests[i], rounds)
    ensures r.Failure? && rounds < 4 ==> exists i | 0 <= i < |requests| :: p(rounds - 1, requests[i]).Failed?
  {
    hide Read, SlotRight, Members, StaleUntil;
    var responses: seq<Option<Bytes>> := seq(|requests|, i => None);
    var pending := seq(|requests|, i => i);
    AllPending(p, requests, responses, pending);
    rounds := 0;
    while rounds <= LAYER_STALE_RETRIES
      invariant rounds <= LAYER_STALE_RETRIES
      invariant Distinct(pending) && Slots(p, requests, responses, Members(pending), {}, rounds)
      invariant rounds > 0 ==> exists i | 0 <= i < |requests| :: StaleUntil(p, requests[i], rounds)
    {
      var retry: seq<int> := [];
      assert pending[0..] == pending && Members([]) == {} by { NoMembers(); }
      for k := 0 to |pending|
        invariant Slots(p, requests, responses, Members(pending[k..]), Members(retry), rounds)
        invariant Distinct(retry) && forall i | 0 <= i < |retry| :: exists j :: 0 <= j < k && pending[j] == retry[i]
      {
        var slot := pending[k];
        MembersStep(pending, k);
        SlotRead(p, requests, responses, Members(pending[k..]), Members(retry), rounds, slot);
        assert Members(pending[k..]) - {slot} == Members(pending[k + 1..]);
        match p(rounds, requests[slot]) {
          case Response(bytes) => responses := responses[slot := Some(bytes)];
          case LayerStale =>
            MembersSnoc(retry, slot);
            retry := retry + [slot];
          case Failed => return Failure(()), rounds + 1;
        }
      }
      assert pending[|pending|..] == [] && Members([]) == {} by { NoMembers(); }
      if |retry| == 0 {
        AllFilled(p, requests, responses, rounds);
        return Success(seq(|responses|, i requires 0 <= i < |responses| && responses[i].Some? => responses[i].value)),
          rounds + 1;
      }
      if rounds == LAYER_STALE_RETRIES {
        StillStale(p, requests, responses, retry);
        return Failure(()), rounds + 1;
      }
      NextRound(p, requests, responses, Members(retry), rounds);
      FirstIsMember(retry);
      pending := retry;
      rounds := rounds + 1;
    }
    assert false;
  }

  lemma NoMembers()
    ensures Members([]) == {}
  {
  }

  lemma FirstIsMember(s: seq<int>)
    requires |s| > 0
    ensures s[0] in Members(s)
  {
  }

  lemma MembersSnoc(s: seq<int>, x: int)
    ensures Members(s + [x]) == Members(s) + {x}
  {
  }

  lemma AllPending(p: Provider, requests: seq<Request>, responses: seq<Option<Bytes>>, pending: seq<int>)
    requires |responses| == |pending| == |requests| && forall i | 0 <= i < |pending| :: pending[i] == i
    ensures Distinct(pending) && Slots(p, requests, responses, Members(pending), {}, 0)
  {
    forall i | 0 <= i < |requests| ensures i in Members(pending) { assert pending[i] in pending; }
  }

  /** Every slot is filled, so none of the unwraps at the end can fail. */
  lemma AllFilled(p: Provider, requests: seq<Request>, responses: seq<Option<Bytes>>, round: nat)
    requires Slots(p, requests, responses, {}, {}, round)
    ensures Resolvable(p, requests)
    ensures forall i | 0 <= i < |requests| ::
      && responses[i].Some? && Read(p, requests[i], 0, LAYER_STALE_RETRIES) == Response(responses[i].value)
      && !StaleUntil(p, requests[i], round + 1)
  {
    hide Read, StaleUntil;
    forall i | 0 <= i < |requests|
      ensures responses[i].Some? && Read(p, requests[i], 0, LAYER_STALE_RETRIES) == Response(responses[i].value)
      ensures !StaleUntil(p, requests[i], round + 1)
    {
      assert SlotRight(p, requests[i], responses[i], false, false, round);
    }
  }

  lemma StillStale(p: Provider, requests: seq<Request>, responses: seq<Option<Bytes>>, retry: seq<int>)
    requires |retry| > 0 && Slots(p, requests, responses, {}, Members(retry), LAYER_STALE_RETRIES)
    ensures !Resolvable(p, requests)
  {
    var slot := retry[0];
    assert slot in Members(retry);
    assert SlotRight(p, requests[slot], responses[slot], false, true, LAYER_STALE_RETRIES);
  }

  lemma NextRound(p: Provider, requests: seq<Request>, responses: seq<Option<Bytes>>, again: set<int>, round: nat)
    requires Slots(p, requests, responses, {}, again, round)
    ensures Slots(p, requests, responses, again, {}, round + 1)
    ensures forall i | i in again :: 0 <= i < |requests| && StaleUntil(p, requests[i], round + 1)
  {
    hide Read, StaleUntil;
    forall i | 0 <= i < |requests| ensures SlotRight(p, requests[i], responses[i], i in again, false, round + 1) {
      assert SlotRight(p, requests[i], responses[i], false, i in again, round);
      StaleEarlier(p, requests[i], round + 1);
    }
  }

  lemma StaleEarlier(p: Provider, req: Request, rounds: nat)
    ensures StaleUntil(p, req, rounds + 1) ==> StaleUntil(p, req, rounds)
  {
  }

  // ---------------------------------------------------------------------------
  // Exact stake reads (pending.rs)
  // ---------------------------------------------------------------------------

  /** One stake row to read: its delegator and block, and the call that reads it. */
  datatype Call = Call(delegator: string, block: int, request: Request)

  /** The calls with what reading each from a round on comes to. */
  function Reads(p: Provider, calls: seq<Call>, round: nat, last: nat): multiset<(Call, Outcome)> {
    if |calls| == 0 then multiset{}
    else
      Reads(p, calls[..|calls| - 1], round, last)
      + multiset{(calls[|calls| - 1], Read(p, calls[|calls| - 1].request, round, last))}
  }

  /** The updates as read results. */
  function Updates(updates: seq<(Call, Bytes)>): multiset<(Call, Outcome)> {
    if |updates| == 0 then multiset{}
    else Updates(updates[..|updates| - 1]) + multiset{(updates[|updates| - 1].0, Response(updates[|updates| - 1].1))}
  }

  lemma ReadsSnoc(p: Provider, calls: seq<Call>, c: Call, round: nat, last: nat)
    ensures Reads(p, calls + [c], round, last) ==
      Reads(p, calls, round, last) + multiset{(c, Read(p, c.request, round, last))}
  {
    assert (calls + [c])[..|calls|] == calls;
  }

  lemma UpdatesSnoc(updates: seq<(Call, Bytes)>, u: (Call, Bytes))
    ensures Updates(updates + [u]) == Updates(updates) + multiset{(u.0, Response(u.1))}
  {
    assert (updates + [u])[..|updates|] == updates;
  }

  lemma Associate<T>(a: multiset<T>, b: multiset<T>, c: multiset<T>)
    ensures (a + b) + c == a + (b + c)
  {
  }

  lemma {:induction false} UpdatesConcat(a: seq<(Call, Bytes)>, b: seq<(Call, Bytes)>)
    ensures Updates(a + b) == Updates(a) + Updates(b)
  {
    hide Updates;
    if |b| == 0 {
      assert a + b == a;
      NoUpdates();
      assert b == [];
    } else {
      var n := |b| - 1;
      UpdatesConcat(a, b[..n]);
      assert a + b == (a + b[..n]) + [b[n]] && b == b[..n] + [b[n]];
      UpdatesSnoc(a + b[..n], b[n]);
      UpdatesSnoc(b[..n], b[n]);
      Associate(Updates(a), Updates(b[..n]), multiset{(b[n].0, Response(b[n].1))});
    }
  }

  lemma {:induction false} ReadsFirst(p: Provider, calls: seq<Call>, round: nat, last: nat)
    requires |calls| > 0
    ensures Reads(p, calls, round, last) ==
      multiset{(calls[0], Read(p, calls[0].request, round, last))} + Reads(p, calls[1..], round, last)
  {
    if |calls| == 1 {
      assert calls[..0] == [] && calls[1..] == [];
    } else {
      var n := |calls| - 1;
      ReadsFirst(p, calls[..n], round, last);
      assert calls[..n][1..] == calls[1..][..n - 1];
      assert calls[1..][n - 1] == calls[n];
    }
  }

  predicate AllRead(p: Provider, calls: seq<Call>, round: nat, last: nat) {
    forall c | c in calls :: Read(p, c.request, round, last).Response?
  }

  lemma {:induction false} UpdatesAreResponses(updates: seq<(Call, Bytes)>)
    ensures forall x | x in Updates(updates) :: x.1.Response?
  {
    if |updates| > 0 { UpdatesAreResponses(updates[..|updates| - 1]); }
  }

  lemma {:induction false} ReadIn(p: Provider, calls: seq<Call>, round: nat, last: nat, c: Call)
    requires c in calls
    ensures (c, Read(p, c.request, round, last)) in Reads(p, calls, round, last)
  {
    var n := |calls| - 1;
    if calls[n] != c {
      assert calls == calls[..n] + [calls[n]];
      ReadIn(p, calls[..n], round, last, c);
    }
  }

  lemma {:induction false} StillToRead(p: Provider, calls: seq<Call>, round: nat, last: nat, x: (Call, Outcome))
    requires x in Reads(p, calls, round, last)
    ensures x.0 in calls && x.1 == Read(p, x.0.request, round, last)
  {
    var n := |calls| - 1;
    assert calls == calls[..n] + [calls[n]];
    if x in Reads(p, calls[..n], round, last) { StillToRead(p, calls[..n], round, last, x); }
  }

  /** One round over the pending misses, in batches of two hundred and fifty; false when a
      miss failed for good. */
  method ReadRound(p: Provider, done: seq<(Call, Bytes)>, pendingMisses: seq<Call>, round: nat, retriesRemaining: nat,
                   ghost misses: seq<Call>)
    returns (ok: bool, updates: seq<(Call, Bytes)>, retryMisses: seq<Call>, ghost batches: nat)
    requires Unread(p, done, [], pendingMisses, round, round + retriesRemaining) ==
      Reads(p, misses, 0, round + retriesRemaining)
    ensures ok ==>
      Unread(p, updates, retryMisses, [], round, round + retriesRemaining) ==
      Reads(p, misses, 0, round + retriesRemaining)
    ensures ok && |retryMisses| > 0 ==> retriesRemaining > 0
    ensures !ok ==> !AllRead(p, misses, 0, round + retriesRemaining)
    ensures ok ==> 250 * (batches - 1) < |pendingMisses| <= 250 * batches || batches == |pendingMisses| == 0
  {
    hide Read, Updates, Reads, Unread, AllRead;
    updates, retryMisses := done, [];
    ghost var last := round + retriesRemaining;
    ghost var goal := Reads(p, misses, 0, last);
    assert pendingMisses[0..] == pendingMisses;
    var next := 0;
    batches := 0;
    while next < |pendingMisses|
      invariant next <= |pendingMisses|
      invariant next == if 250 * batches < |pendingMisses| then 250 * batches else |pendingMisses|
      invariant batches > 0 ==> 250 * (batches - 1) < |pendingMisses|
      invariant Unread(p, updates, retryMisses, pendingMisses[next..], round, last) == goal
      invariant |retryMisses| > 0 ==> retriesRemaining > 0
    {
      var end := if next + EXACT_BATCH_SIZE < |pendingMisses| then next + EXACT_BATCH_SIZE else |pendingMisses|;
      for k := next to end
        invariant Unread(p, updates, retryMisses, pendingMisses[k..], round, last) == goal
        invariant |retryMisses| > 0 ==> retriesRemaining > 0
      {
        var call := pendingMisses[k];
        assert pendingMisses[k..][1..] == pendingMisses[k + 1..];
        ReadOne(p, updates, retryMisses, pendingMisses[k..], round, last);
        var outcome := p(round, call.request);
        if outcome.Response? {
          updates := updates + [(call, outcome.bytes)];
        } else if outcome.LayerStale? && retriesRemaining > 0 {
          retryMisses := retryMisses + [call];
        } else {
          GaveUp(p, misses, updates, retryMisses, pendingMisses[k..], round, last);
          return false, updates, retryMisses, batches;
        }
      }
      next := end;
      batches := batches + 1;
    }
    assert pendingMisses[|pendingMisses|..] == [];
    return true, updates, retryMisses, batches;
  }

  /** Reads each miss exactly once, in batches, retrying the stale ones; it fails exactly
      when some miss cannot be read within the retries. */
  method ResolveExactMisses(p: Provider, misses: seq<Call>, retriesLeft: nat)
    returns (r: Result<seq<(Call, Bytes)>, ()>)
    ensures r.Success? <==> AllRead(p, misses, 0, retriesLeft)
    ensures r.Success? ==> Updates(r.value) == Reads(p, misses, 0, retriesLeft)
  {
    hide Read, Updates, Reads, Unread, AllRead;
    var updates: seq<(Call, Bytes)> := [];
    var pendingMisses := misses;
    var retriesRemaining := retriesLeft;
    var round := 0;
    NothingReadYet(p, misses, retriesLeft);
    while true
      invariant round + retriesRemaining == retriesLeft
      invariant Unread(p, updates, [], pendingMisses, round, retriesLeft) == Reads(p, misses, 0, retriesLeft)
      decreases retriesRemaining
    {
      var ok, after, retryMisses, batches := ReadRound(p, updates, pendingMisses, round, retriesRemaining, misses);
      if !ok { return Failure(()); }
      updates := after;
      NextUnread(p, updates, retryMisses, round, retriesLeft);
      if |retryMisses| == 0 {
        AllUpdated(p, misses, updates, retriesLeft);
        return Success(updates);
      }
      retriesRemaining := retriesRemaining - 1;
      pendingMisses := retryMisses;
      round := round + 1;
    }
  }

  /** Everything accounted for in the middle of a round: read, to be asked again, unread. */
  function Unread(p: Provider, updates: seq<(Call, Bytes)>, retry: seq<Call>, rest: seq<Call>, round: nat,
                  last: nat): multiset<(Call, Outcome)> {
    Updates(updates) + Reads(p, retry, round + 1, last) + Reads(p, rest, round, last)
  }

  lemma NoUpdates()
    ensures Updates([]) == multiset{}
  {
  }

  lemma NothingReadYet(p: Provider, misses: seq<Call>, last: nat)
    ensures Unread(p, [], [], misses, 0, last) == Reads(p, misses, 0, last)
  {
  }

  /** What is left for the next round is what was to be asked again. */
  lemma NextUnread(p: Provider, updates: seq<(Call, Bytes)>, retry: seq<Call>, round: nat, last: nat)
    ensures Unread(p, updates, retry, [], round, last) == Unread(p, updates, [], retry, round + 1, last)
    ensures |retry| == 0 ==> Unread(p, updates, retry, [], round, last) == Updates(updates)
  {
  }

  lemma ReadOne(p: Provider, updates: seq<(Call, Bytes)>, retry: seq<Call>, rest: seq<Call>, round: nat, last: nat)
    requires |rest| > 0 && round <= last
    ensures match p(round, rest[0].request)
            case Response(bytes) =>
              Unread(p, updates + [(rest[0], bytes)], retry, rest[1..], round, last) ==
                Unread(p, updates, retry, rest, round, last)
            case LayerStale =>
              Unread(p, updates, retry + [rest[0]], rest[1..], round, last) ==
                Unread(p, updates, retry, rest, round, last)
            case Failed => true
  {
    hide Reads, Updates;
    ReadsFirst(p, rest, round, last);
    ReadsSnoc(p, retry, rest[0], round + 1, last);
    match p(round, rest[0].request)
    case Response(bytes) => UpdatesSnoc(updates, (rest[0], bytes));
    case LayerStale =>
    case Failed =>
  }

  lemma GaveUp(p: Provider, misses: seq<Call>, updates: seq<(Call, Bytes)>, retry: seq<Call>, rest: seq<Call>,
               round: nat, last: nat)
    requires |rest| > 0 && round <= last
    requires p(round, rest[0].request).Failed? || (p(round, rest[0].request).LayerStale? && round == last)
    requires Unread(p, updates, retry, rest, round, last) == Reads(p, misses, 0, last)
    ensures !AllRead(p, misses, 0, last)
  {
    hide Reads, Updates;
    ReadIn(p, rest, round, last, rest[0]);
    var x := (rest[0], Read(p, rest[0].request, round, last));
    assert x in Reads(p, misses, 0, last);
    StillToRead(p, misses, 0, last, x);
  }

  lemma AllUpdated(p: Provider, misses: seq<Call>, updates: seq<(Call, Bytes)>, last: nat)
    requires Updates(updates) == Reads(p, misses, 0, last)
    ensures AllRead(p, misses, 0, last)
  {
    hide Reads, Updates, Read;
    UpdatesAreResponses(updates);
    forall c | c in misses ensures Read(p, c.request, 0, last).Response? {
      ReadIn(p, misses, 0, last, c);
      assert (c, Read(p, c.request, 0, last)) in Updates(updates);
    }
  }

  /** What reading a row one at a time comes to: from the cache, or else from the provider. */
  function ReadThrough(p: Provider, cache: map<Request, Bytes>, c: Call, last: nat): Outcome {
    if c.request in cache then Response(cache[c.request]) else Read(p, c.request, 0, last)
  }

  function ReadsThrough(p: Provider, cache: map<Request, Bytes>, calls: seq<Call>,
                        last: nat): multiset<(Call, Outcome)> {
    if |calls| == 0 then multiset{}
    else
      ReadsThrough(p, cache, calls[..|calls| - 1], last)
      + multiset{(calls[|calls| - 1], ReadThrough(p, cache, calls[|calls| - 1], last))}
  }

  function Hits(cache: map<Request, Bytes>, calls: seq<Call>): seq<(Call, Bytes)> {
    if |calls| == 0 then []
    else
      var c := calls[|calls| - 1];
      Hits(cache, calls[..|calls| - 1]) + (if c.request in cache then [(c, cache[c.request])] else [])
  }

  function Misses(cache: map<Request, Bytes>, calls: seq<Call>): seq<Call> {
    if |calls| == 0 then []
    else
      var c := calls[|calls| - 1];
      Misses(cache, calls[..|calls| - 1]) + (if c.request in cache then [] else [c])
  }

  /** Hits and resolved misses together are the reads of all calls. */
  lemma {:induction false} HitsAndMisses(p: Provider, cache: map<Request, Bytes>, calls: seq<Call>, last: nat)
    ensures Updates(Hits(cache, calls)) + Reads(p, Misses(cache, calls), 0, last) == ReadsThrough(p, cache, calls, last)
  {
    if |calls| == 0 {
      NoUpdates();
    } else {
      hide Updates, Reads, Read;
      var n := |calls| - 1;
      var c := calls[n];
      var hits, misses := Hits(cache, calls[..n]), Misses(cache, calls[..n]);
      HitsAndMisses(p, cache, calls[..n], last);
      if c.request in cache {
        UpdatesSnoc(hits, (c, cache[c.request]));
        assert misses + [] == misses;
        Shuffle(Updates(hits), Reads(p, misses, 0, last), multiset{(c, Response(cache[c.request]))});
      } else {
        ReadsSnoc(p, misses, c, 0, last);
        assert hits + [] == hits;
        Associate(Updates(hits), Reads(p, misses, 0, last), multiset{(c, Read(p, c.request, 0, last))});
      }
    }
  }

  lemma Shuffle<T>(a: multiset<T>, b: multiset<T>, c: multiset<T>)
    ensures (a + c) + b == (a + b) + c
  {
  }

  lemma {:induction false} MissesAre(cache: map<Request, Bytes>, calls: seq<Call>)
    ensures forall c :: c in Misses(cache, calls) <==> c in calls && c.request !in cache
  {
    if |calls| > 0 {
      MissesAre(cache, calls[..|calls| - 1]);
      assert calls == calls[..|calls| - 1] + [calls[|calls| - 1]];
    }
  }

  predicate AllReadThrough(p: Provider, cache: map<Request, Bytes>, calls: seq<Call>, last: nat) {
    forall c | c in calls :: ReadThrough(p, cache, c, last).Response?
  }

  lemma SameSuccess(p: Provider, cache: map<Request, Bytes>, calls: seq<Call>, last: nat)
    ensures AllRead(p, Misses(cache, calls), 0, last) <==> AllReadThrough(p, cache, calls, last)
  {
    hide Read;
    MissesAre(cache, calls);
    if AllRead(p, Misses(cache, calls), 0, last) {
      forall c | c in calls ensures ReadThrough(p, cache, c, last).Response? {
        if c.request !in cache { assert c in Misses(cache, calls); }
      }
    }
  }

  method SplitByCache(cache: map<Request, Bytes>, calls: seq<Call>)
    returns (updates: seq<(Call, Bytes)>, misses: seq<Call>)
    ensures updates == Hits(cache, calls) && misses == Misses(cache, calls)
  {
    updates, misses := [], [];
    for i := 0 to |calls|
      invariant updates == Hits(cache, calls[..i]) && misses == Misses(cache, calls[..i])
    {
      var call := calls[i];
      assert calls[..i + 1][..i] == calls[..i];
      if call.request in cache {
        updates := updates + [(call, cache[call.request])];
      } else {
        misses := misses + [call];
      }
    }
    assert calls[..|calls|] == calls;
  }

  /** Prefetching the cache in bulk and resolving only the misses gives exactly the updates
      that reading every row through the cache would, and fails exactly when that would. */
  method ReconcileExact(p: Provider, cache: map<Request, Bytes>, calls: seq<Call>)
    returns (r: Result<seq<(Call, Bytes)>, ()>)
    ensures r.Success? <==> AllReadThrough(p, cache, calls, 3)
    ensures r.Success? ==> Updates(r.value) == ReadsThrough(p, cache, calls, 3)
  {
    hide Read, Updates, Reads, ReadsThrough, AllRead, AllReadThrough, Hits, Misses;
    var updates, misses := SplitByCache(cache, calls);
    HitsAndMisses(p, cache, calls, LAYER_STALE_RETRIES);
    SameSuccess(p, cache, calls, LAYER_STALE_RETRIES);
    if |misses| == 0 {
      NoReads(p);
      return Success(updates);
    }
    var missed := ResolveExactMisses(p, misses, LAYER_STALE_RETRIES);
    if missed.Failure? { return Failure(()); }
    UpdatesConcat(updates, missed.value);
    return Success(updates + missed.value);
  }

  lemma NoReads(p: Provider)
    ensures Reads(p, [], 0, LAYER_STALE_RETRIES) == multiset{} && AllRead(p, [], 0, LAYER_STALE_RETRIES)
  {
  }
}
