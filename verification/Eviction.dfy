/** Choosing which idle tenant connection to evict from a full pool. */
module Eviction {
  import opened Options

  /** Five minutes, in nanoseconds. */
  const DEFAULT_IDLE_TIMEOUT := 300_000_000_000

  function IdleTimeout(configured: int): int { if configured <= 0 then DEFAULT_IDLE_TIMEOUT else configured }

  predicate Idle(accessed: map<string, int>, id: string, now: int, configured: int) {
    id in accessed && now - accessed[id] >= if configured <= 0 then 300_000_000_000 else configured
  }

  /** The empty id stands for "none yet", as in the source; the managers never cache under it. */
  method FindLRUEvictionCandidate(connectionCount: nat, maxConnections: int, accessed: map<string, int>,
                                  configured: int, now: int)
    returns (victim: Option<string>)
    ensures victim.Some? ==>
      && 0 < maxConnections <= connectionCount && Idle(accessed, victim.value, now, configured)
      && ("" !in accessed ==>
          forall id :: Idle(accessed, id, now, configured) ==> accessed[victim.value] <= accessed[id])
    ensures victim.None? && 0 < maxConnections <= connectionCount && "" !in accessed ==>
      forall id :: id in accessed ==> !Idle(accessed, id, now, configured)
  {
    if maxConnections <= 0 || connectionCount < maxConnections {
      return None;
    }
    var oldestId, oldestTime := "", 0;
    var todo := accessed.Keys;
    while todo != {}
      invariant todo <= accessed.Keys
      invariant oldestId != "" ==> Idle(accessed, oldestId, now, configured) && oldestTime == accessed[oldestId]
      invariant "" !in accessed ==> forall id :: id !in todo && Idle(accessed, id, now, configured) ==>
                  oldestId != "" && oldestTime <= accessed[id]
      decreases |todo|
    {
      var id :| id in todo;
      todo := todo - {id};
      var t := accessed[id];
      if now - t >= IdleTimeout(configured) {
        if oldestId == "" || t < oldestTime {
          oldestId, oldestTime := id, t;
        }
      }
    }
    return if oldestId == "" then None else Some(oldestId);
  }
}
