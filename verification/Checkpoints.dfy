/** Event-id checkpoints: GREATEST upserts and LIMIT, shared by the incremental workers. */
module Checkpoints {
  import opened Wrappers

  function Max(a: int, b: int): int { if a < b then b else a }

  function Min(a: int, b: int): int { if a < b then a else b }

  /** The stored checkpoint never goes back. */
  function AdvanceCheckpoint(cp: Option<int>, id: int): (next: Option<int>)
    ensures next.Some? && id <= next.value && (cp.Some? ==> cp.value <= next.value)
    ensures next == Some(id) || next == cp
  {
    Some(if cp.Some? then Max(cp.value, id) else id)
  }

  /** How many rows a sequence of runs with these limits fetches when there are enough. */
  function Asked(limits: seq<nat>): nat {
    if |limits| == 0 then 0 else Asked(limits[..|limits| - 1]) + limits[|limits| - 1]
  }
}
