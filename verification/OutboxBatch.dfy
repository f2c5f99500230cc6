/** What one dispatch cycle claims: each repository call with its limit, its cutoff and its answer, and
    how the calls share the batch. */
module OutboxBatch {
  import opened Options
  import opened OutboxTable
  import opened OutboxRepository
  import opened Sequences
  import opened Text

  /** The configuration after normalisation: every limit is positive. */
  datatype Config = Config(batchSize: int, priorityBudget: int, maxFailedPerBatch: int,
                           priorityTypes: seq<string>, maxDispatchAttempts: int,
                           publishMaxAttempts: int, retryWindow: int, processingTimeout: int)

  predicate Normalized(c: Config) {
    && c.batchSize > 0 && c.priorityBudget > 0 && c.maxFailedPerBatch > 0 && c.maxDispatchAttempts > 0
    && c.publishMaxAttempts > 0 && c.retryWindow > 0 && c.processingTimeout > 0
  }

  function Min(a: int, b: int): int { if a <= b then a else b }

  // ---------- one call ----------

  /** A call on the repository: the table it found, the rows others had locked, whether it failed, the
      rows it took and those it handed out. */
  datatype Claim = Claim(table: Table, locked: set<Id>, fault: bool, limit: int, taken: seq<Id>, grants: seq<Grant>)

  /** A call that fails takes nothing; one that does not takes as many eligible rows as it can. */
  ghost predicate Answered(c: Claim, eligible: Row -> bool) {
    if c.fault then c.taken == [] else Maximal(c.table, c.taken, c.limit, c.locked, eligible)
  }

  /** Every row taken is handed out, in PROCESSING and otherwise as it was. */
  ghost predicate HandsOutAll(c: Claim) {
    && GrantIds(c.grants) == c.taken
    && forall g :: g in c.grants ==>
         && g.id in c.table && g.was == c.table[g.id]
         && g.now == Row(g.was.eventType, Processing, g.was.attempts, g.now.updatedAt)
  }

  /** The rows taken that have an attempt left are handed out, with one more attempt counted. */
  ghost predicate HandsOutRetried(c: Claim, maxAttempts: int) {
    && |c.grants| <= |c.taken| && Distinct(GrantIds(c.grants))
    && (forall id :: id in GrantIds(c.grants) <==>
          id in c.taken && id in c.table && c.table[id].attempts + 1 < maxAttempts)
    && forall g :: g in c.grants ==>
         && g.id in c.table && g.was == c.table[g.id]
         && g.now == Row(g.was.eventType, Processing, g.was.attempts + 1, g.now.updatedAt)
  }

  // Which rows each call is after.

  function PendingOf(eventType: string): Row -> bool {
    (row: Row) => row.status == Pending && row.eventType == eventType
  }

  function ClaimedBy(cutoff: int): Row -> bool { (row: Row) => row.status == Processing && row.updatedAt <= cutoff }

  function FailedBy(cutoff: int, maxAttempts: int): Row -> bool {
    (row: Row) => row.status == Failed && row.attempts < maxAttempts && row.updatedAt <= cutoff
  }

  function StillPending(): Row -> bool { (row: Row) => row.status == Pending }

  // ---------- the calls of a cycle ----------

  function GrantsIn(c: Option<Claim>): seq<Grant> { if c.Some? then c.value.grants else [] }

  function Flatten(cs: seq<Claim>): seq<Grant> {
    if cs == [] then [] else Flatten(cs[..|cs| - 1]) + cs[|cs| - 1].grants
  }

  datatype Layers = Layers(priority: seq<Claim>, stuck: Option<Claim>, failed: Option<Claim>, pending: Option<Claim>) {
    /** Everything handed out, in layer order. */
    function All(): seq<Grant> { Flatten(priority) + (GrantsIn(stuck) + (GrantsIn(failed) + GrantsIn(pending))) }
  }

  /** Pending rows of each priority type in turn, with what is left of the budget, until it is used up. */
  ghost predicate PriorityLayer(cs: seq<Claim>, types: seq<string>, budget: int, down: nat -> bool) {
    && |cs| <= |types|
    && (forall i :: 0 <= i < |cs| ==> PriorityTurn(cs, types, budget, down, i))
    && (|cs| < |types| ==> |Flatten(cs)| >= budget)
  }

  /** The i-th of these calls has what the earlier ones left of the budget. */
  ghost predicate PriorityTurn(cs: seq<Claim>, types: seq<string>, budget: int, down: nat -> bool, i: int)
    requires 0 <= i < |cs| <= |types|
  {
    PriorityCall(cs[i], types[i], budget - |Flatten(cs[..i])|, down(i))
  }

  ghost predicate PriorityCall(c: Claim, eventType: string, limit: int, down: bool) {
    && c.limit == limit > 0 && c.fault == (down || Blank(eventType))
    && Answered(c, PendingOf(Trim(eventType)))
    && HandsOutAll(c)
  }

  /** Claims that have timed out, with the room the priority events left. */
  ghost predicate StuckLayer(c: Option<Claim>, room: int, cutoff: int, maxAttempts: int, down: bool) {
    && (c.Some? <==> room > 0)
    && (c.Some? ==>
          && c.value.limit == room && c.value.fault == down
          && Answered(c.value, ClaimedBy(cutoff))
          && HandsOutRetried(c.value, maxAttempts))
  }

  /** Failed events whose retry window has passed, within the room and the limit for failed ones. */
  ghost predicate FailedLayer(c: Option<Claim>, reached: bool, limit: int, cutoff: int, maxAttempts: int, down: bool) {
    && (c.Some? <==> reached && limit > 0)
    && (c.Some? ==>
          && c.value.limit == limit && c.value.fault == down
          && Answered(c.value, FailedBy(cutoff, maxAttempts))
          && HandsOutAll(c.value))
  }

  ghost predicate PendingLayer(c: Option<Claim>, reached: bool, room: int, down: bool) {
    && (c.Some? <==> reached && room > 0)
    && (c.Some? ==>
          && c.value.limit == room && c.value.fault == down
          && Answered(c.value, StillPending())
          && HandsOutAll(c.value))
  }

  /** The calls of a cycle that starts at `now`: each layer has the room that the earlier ones left, and
      the first without room ends the cycle.  down(k) says whether the k-th call fails. */
  ghost predicate IsCycle(l: Layers, cfg: Config, now: int, down: nat -> bool) {
    && PriorityLayer(l.priority, cfg.priorityTypes, Min(cfg.priorityBudget, cfg.batchSize), down)
    && AfterPriority(l.stuck, l.failed, l.pending, cfg.batchSize - |Flatten(l.priority)|, cfg, now, down)
  }

  /** The three later layers, with the room left by the priority events. */
  ghost predicate AfterPriority(stuck: Option<Claim>, failed: Option<Claim>, pending: Option<Claim>, room: int,
                                cfg: Config, now: int, down: nat -> bool)
  {
    var n := |cfg.priorityTypes|;
    var afterStuck := room - |GrantsIn(stuck)|;
    && StuckLayer(stuck, room, now - cfg.processingTimeout, cfg.maxDispatchAttempts, down(n))
    && FailedLayer(failed, stuck.Some?, Min(afterStuck, cfg.maxFailedPerBatch), now - cfg.retryWindow,
                   cfg.maxDispatchAttempts, down(n + 1))
    && PendingLayer(pending, failed.Some?, afterStuck - |GrantsIn(failed)|, down(n + 2))
  }

  lemma LaterLayers(stuck: Option<Claim>, failed: Option<Claim>, pending: Option<Claim>, room: int,
                    cfg: Config, now: int, down: nat -> bool)
    requires StuckLayer(stuck, room, now - cfg.processingTimeout, cfg.maxDispatchAttempts, down(|cfg.priorityTypes|))
    requires FailedLayer(failed, stuck.Some?, Min(room - |GrantsIn(stuck)|, cfg.maxFailedPerBatch),
                         now - cfg.retryWindow, cfg.maxDispatchAttempts, down(|cfg.priorityTypes| + 1))
    requires PendingLayer(pending, failed.Some?, room - |GrantsIn(stuck)| - |GrantsIn(failed)|,
                          down(|cfg.priorityTypes| + 2))
    ensures AfterPriority(stuck, failed, pending, room, cfg, now, down)
  {
  }

  // ---------- the batch is never overrun ----------

  lemma {:induction false} PriorityFits(cs: seq<Claim>, types: seq<string>, budget: int, down: nat -> bool, n: nat)
    requires |cs| <= |types| && n <= |cs|
    requires forall i :: 0 <= i < |cs| ==> PriorityTurn(cs, types, budget, down, i)
    ensures |Flatten(cs[..n])| <= if budget > 0 then budget else 0
  {
    if n > 0 {
      PriorityFits(cs, types, budget, down, n - 1);
      assert cs[..n][..n - 1] == cs[..n - 1];
      assert PriorityTurn(cs, types, budget, down, n - 1);
      assert |GrantIds(cs[n - 1].grants)| == |cs[n - 1].grants|;
    }
  }

  lemma StuckFits(c: Option<Claim>, room: int, cutoff: int, maxAttempts: int, down: bool)
    requires StuckLayer(c, room, cutoff, maxAttempts, down)
    ensures |GrantsIn(c)| <= if room > 0 then room else 0
  {
  }

  lemma FailedFits(c: Option<Claim>, reached: bool, limit: int, cutoff: int, maxAttempts: int, down: bool)
    requires FailedLayer(c, reached, limit, cutoff, maxAttempts, down)
    ensures |GrantsIn(c)| <= if limit > 0 then limit else 0
  {
    assert c.Some? ==> |GrantIds(c.value.grants)| == |c.value.grants|;
  }

  lemma PendingFits(c: Option<Claim>, reached: bool, room: int, down: bool)
    requires PendingLayer(c, reached, room, down)
    ensures |GrantsIn(c)| <= if room > 0 then room else 0
  {
    assert c.Some? ==> |GrantIds(c.value.grants)| == |c.value.grants|;
  }

  lemma AfterPriorityFits(stuck: Option<Claim>, failed: Option<Claim>, pending: Option<Claim>, room: int,
                          cfg: Config, now: int, down: nat -> bool)
    requires room >= 0 && AfterPriority(stuck, failed, pending, room, cfg, now, down)
    ensures |GrantsIn(stuck)| + |GrantsIn(failed)| + |GrantsIn(pending)| <= room
  {
    var n := |cfg.priorityTypes|;
    StuckFits(stuck, room, now - cfg.processingTimeout, cfg.maxDispatchAttempts, down(n));
    var afterStuck := room - |GrantsIn(stuck)|;
    FailedFits(failed, stuck.Some?, Min(afterStuck, cfg.maxFailedPerBatch), now - cfg.retryWindow,
               cfg.maxDispatchAttempts, down(n + 1));
    PendingFits(pending, failed.Some?, afterStuck - |GrantsIn(failed)|, down(n + 2));
  }

  /** A cycle hands out at most batchSize events. */
  lemma CycleFits(l: Layers, cfg: Config, now: int, down: nat -> bool)
    requires Normalized(cfg) && IsCycle(l, cfg, now, down)
    ensures |l.All()| <= cfg.batchSize
  {
    PriorityFits(l.priority, cfg.priorityTypes, Min(cfg.priorityBudget, cfg.batchSize), down, |l.priority|);
    assert l.priority[..|l.priority|] == l.priority;
    AfterPriorityFits(l.stuck, l.failed, l.pending, cfg.batchSize - |Flatten(l.priority)|, cfg, now, down);
  }
}
