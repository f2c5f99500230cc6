/** One dispatch cycle: collecting a batch in priority layers, publishing it, recording outcomes.  Other
    cycles may change the table between any two of its transactions. */
module OutboxDispatcher {
  import opened Multiples
  import opened Options
  import opened OutboxTable
  import opened OutboxRepository
  import opened OutboxBatch
  import opened Sequences
  import opened Text

  // ---------- removing duplicates ----------

  /** The ids without their later repetitions. */
  function FirstOccurrences(ids: seq<Id>): (r: seq<Id>)
    ensures |r| <= |ids| && Distinct(r) && forall x :: x in r <==> x in ids
  {
    if ids == [] then []
    else
      var r := FirstOccurrences(ids[..|ids| - 1]);
      assert ids == ids[..|ids| - 1] + [ids[|ids| - 1]];
      if ids[|ids| - 1] in r then r else r + [ids[|ids| - 1]]
  }

  /** What comes first stays first: removing duplicates keeps the order of the layers. */
  lemma {:induction false} EarlierLayersFirst(a: seq<Id>, b: seq<Id>)
    ensures FirstOccurrences(a) <= FirstOccurrences(a + b)
    decreases |b|
  {
    if b == [] {
      assert a + b == a;
    } else {
      EarlierLayersFirst(a, b[..|b| - 1]);
      assert (a + b)[..|a + b| - 1] == a + b[..|b| - 1];
    }
  }

  method DeduplicateEvents(events: seq<Event>) returns (r: seq<Event>)
    ensures Ids(r) == FirstOccurrences(Ids(events))
    ensures forall e :: e in r ==> e in events
  {
    var seen: set<Id> := {};
    r := [];
    for i := 0 to |events|
      invariant Ids(r) == FirstOccurrences(Ids(events)[..i])
      invariant forall x :: x in seen <==> x in Ids(r)
      invariant forall e :: e in r ==> e in events
    {
      assert Ids(events)[..i + 1][..i] == Ids(events)[..i];
      if events[i].id !in seen {
        seen := seen + {events[i].id};
        IdsConcat(r, [events[i]]);
        r := r + [events[i]];
      }
    }
    assert Ids(events)[..|events|] == Ids(events);
  }

  // ---------- the table while other cycles run ----------

  /** Rows stay, terminal rows stay as they are, and attempts are never taken back. */
  predicate Advances(t: Table, u: Table) {
    t.Keys <= u.Keys && forall id :: id in t ==>
      u[id] == t[id] || (!Terminal(t[id].status) && u[id].attempts >= t[id].attempts)
  }

  lemma AdvancesCompose(t: Table, u: Table, v: Table)
    requires Advances(t, u) && Advances(u, v)
    ensures Advances(t, v)
  {
  }

  /** Whatever the other cycles do in the meantime, and the rows they have locked now. */
  method OthersAct(repo: Repository)
    modifies repo`rows, repo`locked
    ensures Advances(old(repo.rows), repo.rows)
  {
    var t: Table, locked: set<Id> := *, *;
    repo.locked := locked;
    if Advances(repo.rows, t) {
      repo.rows := t;
    }
  }

  method Later(clock: int) returns (now: int)
    ensures now >= clock
  {
    now :| now >= clock;
  }

  lemma TakesAdvances(t: Table, u: Table, ids: seq<Id>, now: int)
    requires Takes(t, u, ids, now) && forall id :: id in ids ==> id in t && !Terminal(t[id].status)
    ensures Advances(t, u)
  {
  }

  lemma RetakesAdvances(t: Table, u: Table, ids: seq<Id>, maxAttempts: int, now: int)
    requires Retakes(t, u, ids, maxAttempts, now) && forall id :: id in ids ==> id in t && !Terminal(t[id].status)
    ensures Advances(t, u)
  {
  }

  lemma TakesGrants(t: Table, u: Table, es: seq<Event>, now: int)
    requires Takes(t, u, Ids(es), now) && Copies(es, u) && forall e :: e in es ==> e.id in t
    ensures forall g :: g in GrantsOf(es, t) ==>
              && g.id in t && g.was == t[g.id]
              && g.now == Row(g.was.eventType, Processing, g.was.attempts, g.now.updatedAt)
  {
    forall g | g in GrantsOf(es, t)
      ensures && g.id in t && g.was == t[g.id]
              && g.now == Row(g.was.eventType, Processing, g.was.attempts, g.now.updatedAt)
    {
      var i :| 0 <= i < |es| && GrantsOf(es, t)[i] == g;
      assert es[i] in es && Ids(es)[i] == g.id;
    }
  }

  lemma RetakesGrants(t: Table, u: Table, es: seq<Event>, stuck: seq<Id>, maxAttempts: int, now: int)
    requires Retakes(t, u, stuck, maxAttempts, now) && Copies(es, u) && forall e :: e in es ==> e.id in t
    requires forall id :: id in Ids(es) ==> id in stuck && id in t && t[id].attempts + 1 < maxAttempts
    ensures forall g :: g in GrantsOf(es, t) ==>
              && g.id in t && g.was == t[g.id]
              && g.now == Row(g.was.eventType, Processing, g.was.attempts + 1, g.now.updatedAt)
  {
    forall g | g in GrantsOf(es, t)
      ensures && g.id in t && g.was == t[g.id]
              && g.now == Row(g.was.eventType, Processing, g.was.attempts + 1, g.now.updatedAt)
    {
      var i :| 0 <= i < |es| && GrantsOf(es, t)[i] == g;
      assert es[i] in es && Ids(es)[i] == g.id;
    }
  }

  /** The events are those of the grants, which were added to the log. */
  ghost predicate Handed(es: seq<Event>, gs: seq<Grant>, before: seq<Grant>, after: seq<Grant>) {
    Ids(es) == GrantIds(gs) && after == before + gs
  }

  lemma HandedMore(es: seq<Event>, gs: seq<Grant>, more: seq<Event>, hs: seq<Grant>,
                   a: seq<Grant>, b: seq<Grant>, c: seq<Grant>)
    requires Handed(es, gs, a, b) && Handed(more, hs, b, c)
    ensures Handed(es + more, gs + hs, a, c)
  {
    IdsConcat(es, more);
    assert GrantIds(gs + hs) == GrantIds(gs) + GrantIds(hs);
    assert a + gs + hs == a + (gs + hs);
  }

  // ---------- the turn of each tenant ----------

  function NextTurn(turn: nat, tenants: nat): nat
    requires tenants > 0
  {
    (turn + 1) % tenants
  }

  function TurnAfter(turn: nat, tenants: nat, cycles: nat): nat
    requires tenants > 0
  {
    if cycles == 0 then turn else NextTurn(TurnAfter(turn, tenants, cycles - 1), tenants)
  }

  /** Tenant i goes first in cycle k of a round. */
  predicate Leads(turn: nat, tenants: nat, k: nat, i: nat) {
    k < tenants && TurnAfter(turn, tenants, k) % tenants == i
  }

  lemma NextTurnStep(turn: nat, tenants: nat)
    requires tenants > 0
    ensures NextTurn(turn, tenants) % tenants == if turn % tenants + 1 == tenants then 0 else turn % tenants + 1
  {
    SuccessorRemainder(turn, tenants);
  }

  lemma {:induction false} TurnIsShifted(turn: nat, tenants: nat, cycles: nat)
    requires tenants > 0 && cycles <= tenants
    ensures TurnAfter(turn, tenants, cycles) % tenants ==
              var shifted := turn % tenants + cycles; if shifted < tenants then shifted else shifted - tenants
  {
    if cycles > 0 {
      TurnIsShifted(turn, tenants, cycles - 1);
      NextTurnStep(TurnAfter(turn, tenants, cycles - 1), tenants);
    }
  }

  /** Over as many cycles as there are tenants, every tenant goes first exactly once. */
  lemma EveryTenantLeadsOnce(turn: nat, tenants: nat, i: nat)
    requires i < tenants
    ensures exists k: nat :: Leads(turn, tenants, k, i)
    ensures forall j: nat, k: nat :: Leads(turn, tenants, j, i) && Leads(turn, tenants, k, i) ==> j == k
  {
    var start := turn % tenants;
    var k: nat := if i >= start then i - start else i - start + tenants;
    TurnIsShifted(turn, tenants, k);
    assert Leads(turn, tenants, k, i);
    forall j: nat | Leads(turn, tenants, j, i) ensures j == k {
      TurnIsShifted(turn, tenants, j);
    }
  }

  lemma TurnMore(cs: seq<Claim>, c: Claim, types: seq<string>, budget: int, down: nat -> bool)
    requires |cs| < |types| && forall k :: 0 <= k < |cs| ==> PriorityTurn(cs, types, budget, down, k)
    requires PriorityCall(c, types[|cs|], budget - |Flatten(cs)|, down(|cs|))
    ensures Flatten(cs + [c]) == Flatten(cs) + c.grants
    ensures forall k :: 0 <= k <= |cs| ==> PriorityTurn(cs + [c], types, budget, down, k)
  {
    assert (cs + [c])[..|cs|] == cs;
    forall k | 0 <= k < |cs|
      ensures PriorityTurn(cs + [c], types, budget, down, k)
    {
      assert (cs + [c])[..k] == cs[..k];
      assert PriorityTurn(cs, types, budget, down, k);
    }
  }

  // ---------- publishing one event ----------

  datatype Reply = Accepted | RetryableError | NonRetryableError

  /** What happens around a cycle: the handler's answer to each call for each event, whether the wait
      after a failed call is interrupted and how that error is classified, whether the state update of
      an event fails, and whether the k-th claim fails. */
  datatype World = World(answers: (Id, nat) -> Reply, interrupted: (Id, nat) -> bool, final: (Id, nat) -> bool,
                         updateFails: Id -> bool, down: nat -> bool)

  /** Calls 0 to k - 1 all failed with an error that allows another try, and no wait was interrupted. */
  ghost predicate TriedTo(w: World, id: Id, k: nat) {
    forall j: nat :: j < k ==> w.answers(id, j) == RetryableError && !w.interrupted(id, j)
  }

  /** One of the allowed calls succeeds before anything ends the tries. */
  ghost predicate Succeeds(w: World, id: Id, maxCalls: int) {
    exists k: nat :: k < maxCalls && TriedTo(w, id, k) && w.answers(id, k) == Accepted
  }

  ghost predicate CondemnedBy(w: World, id: Id, k: nat, maxCalls: int) {
    || w.answers(id, k) == NonRetryableError
    || (w.answers(id, k) == RetryableError && k + 1 < maxCalls && w.interrupted(id, k) && w.final(id, k))
  }

  /** The tries end with an error that must not be retried: the handler's, or that of the wait. */
  ghost predicate Condemns(w: World, id: Id, maxCalls: int) {
    exists k: nat :: k < maxCalls && TriedTo(w, id, k) && CondemnedBy(w, id, k, maxCalls)
  }

  lemma EndIsUnique(w: World, id: Id, i: nat, k: nat)
    requires TriedTo(w, id, i) && TriedTo(w, id, k)
    requires w.answers(id, i) != RetryableError || w.interrupted(id, i)
    requires w.answers(id, k) != RetryableError || w.interrupted(id, k)
    ensures i == k
  {
    assert i < k ==> w.answers(id, i) == RetryableError && !w.interrupted(id, i);
    assert k < i ==> w.answers(id, k) == RetryableError && !w.interrupted(id, k);
  }

  lemma NoEndYet(w: World, id: Id, n: nat, k: nat)
    requires TriedTo(w, id, n) && k < n
    ensures w.answers(id, k) == RetryableError && !w.interrupted(id, k)
  {
  }

  /** What the call that ended the tries says about them. */
  lemma EndDecides(w: World, id: Id, k: nat, maxCalls: int)
    requires k < maxCalls && TriedTo(w, id, k)
    requires w.answers(id, k) != RetryableError || (w.interrupted(id, k) && k + 1 < maxCalls)
    ensures Succeeds(w, id, maxCalls) <==> w.answers(id, k) == Accepted
    ensures Condemns(w, id, maxCalls) <==>
      w.answers(id, k) == NonRetryableError || (w.answers(id, k) == RetryableError && w.final(id, k))
  {
    forall i: nat | i < maxCalls && TriedTo(w, id, i) && (w.answers(id, i) != RetryableError || w.interrupted(id, i))
      ensures i == k
    {
      EndIsUnique(w, id, i, k);
    }
  }

  lemma UsedUp(w: World, id: Id, maxCalls: int)
    requires maxCalls > 0 && TriedTo(w, id, maxCalls - 1) && w.answers(id, maxCalls - 1) == RetryableError
    ensures !Succeeds(w, id, maxCalls) && !Condemns(w, id, maxCalls)
  {
    forall k: nat | k < maxCalls - 1
      ensures w.answers(id, k) == RetryableError && !w.interrupted(id, k)
    {
      NoEndYet(w, id, maxCalls - 1, k);
    }
  }

  // ---------- what a cycle reports ----------

  datatype DispatchResult = DispatchResult(processed: int, published: int, failed: int, stateUpdateFailed: int)

  /** How many of the events are delivered. */
  ghost function Successes(w: World, ids: seq<Id>, maxCalls: int): nat {
    if ids == [] then 0
    else Successes(w, ids[..|ids| - 1], maxCalls) + if Succeeds(w, ids[|ids| - 1], maxCalls) then 1 else 0
  }

  ghost predicate AllPublished(t: Table, ids: seq<Id>) {
    forall id :: id in ids ==> id in t && t[id].status == Published
  }

  lemma PublishedStays(t: Table, u: Table, ids: seq<Id>)
    requires AllPublished(t, ids) && Advances(t, u)
    ensures AllPublished(u, ids)
  {
  }

  /** Distinct members of the first i ids that are delivered. */
  ghost predicate DrawnFrom(xs: seq<Id>, ids: seq<Id>, i: nat, w: World, maxCalls: int)
    requires i <= |ids|
  {
    Distinct(ids) && Distinct(xs) && forall x :: x in xs ==> x in ids[..i] && Succeeds(w, x, maxCalls)
  }

  lemma DrawMore(xs: seq<Id>, ids: seq<Id>, i: nat, w: World, maxCalls: int)
    requires i < |ids| && DrawnFrom(xs, ids, i, w, maxCalls)
    ensures DrawnFrom(xs, ids, i + 1, w, maxCalls)
    ensures Succeeds(w, ids[i], maxCalls) ==> DrawnFrom(xs + [ids[i]], ids, i + 1, w, maxCalls)
  {
    assert ids[..i + 1] == ids[..i] + [ids[i]];
    assert ids[i] !in ids[..i];
    assert forall k :: 0 <= k < |xs| ==> xs[k] in xs;
  }

  lemma CountMore(w: World, ids: seq<Id>, i: nat, maxCalls: int)
    requires i < |ids|
    ensures Successes(w, ids[..i + 1], maxCalls) ==
              Successes(w, ids[..i], maxCalls) + if Succeeds(w, ids[i], maxCalls) then 1 else 0
  {
    assert ids[..i + 1][..i] == ids[..i];
  }

  class Dispatcher {
    const cfg: Config
    var tenantTurn: nat

    constructor (cfg: Config)
      requires Normalized(cfg)
      ensures this.cfg == cfg && tenantTurn == 0
    {
      this.cfg := cfg;
      tenantTurn := 0;
    }

    // Each of the four calls on the repository, with an error read as an empty answer.

    method TakePendingByType(repo: Repository, eventType: string, limit: int, now: int, fault: bool)
      returns (es: seq<Event>, ghost c: Claim)
      requires limit > 0
      modifies repo`rows, repo`grants
      ensures Handed(es, c.grants, old(repo.grants), repo.grants) && Advances(old(repo.rows), repo.rows)
      ensures c.table == old(repo.rows) && c.locked == repo.locked && PriorityCall(c, eventType, limit, fault)
    {
      var reply := repo.ListPendingByType(eventType, limit, now, fault);
      es, c := [], Claim(old(repo.rows), repo.locked, true, limit, [], []);
      if reply.Ok? {
        es := reply.value;
        c := Claim(old(repo.rows), repo.locked, false, limit, Ids(es), GrantsOf(es, old(repo.rows)));
        TakesAdvances(old(repo.rows), repo.rows, Ids(es), now);
        TakesGrants(old(repo.rows), repo.rows, es, now);
      }
    }

    method TakePending(repo: Repository, room: int, now: int, fault: bool)
      returns (es: seq<Event>, ghost c: Option<Claim>)
      requires room > 0
      modifies repo`rows, repo`grants
      ensures Handed(es, GrantsIn(c), old(repo.grants), repo.grants) && Advances(old(repo.rows), repo.rows)
      ensures PendingLayer(c, true, room, fault) && c.value.table == old(repo.rows) && c.value.locked == repo.locked
    {
      var reply := repo.ListPending(room, now, fault);
      es, c := [], Some(Claim(old(repo.rows), repo.locked, true, room, [], []));
      if reply.Ok? {
        es := reply.value;
        c := Some(Claim(old(repo.rows), repo.locked, false, room, Ids(es), GrantsOf(es, old(repo.rows))));
        TakesAdvances(old(repo.rows), repo.rows, Ids(es), now);
        TakesGrants(old(repo.rows), repo.rows, es, now);
      }
    }

    method TakeFailed(repo: Repository, limit: int, cutoff: int, now: int, fault: bool)
      returns (es: seq<Event>, ghost c: Option<Claim>)
      requires Normalized(cfg) && limit > 0
      modifies repo`rows, repo`grants
      ensures Handed(es, GrantsIn(c), old(repo.grants), repo.grants) && Advances(old(repo.rows), repo.rows)
      ensures FailedLayer(c, true, limit, cutoff, cfg.maxDispatchAttempts, fault)
      ensures c.value.table == old(repo.rows) && c.value.locked == repo.locked
    {
      var reply := repo.ResetForRetry(limit, cutoff, cfg.maxDispatchAttempts, now, fault);
      es, c := [], Some(Claim(old(repo.rows), repo.locked, true, limit, [], []));
      if reply.Ok? {
        es := reply.value;
        c := Some(Claim(old(repo.rows), repo.locked, false, limit, Ids(es), GrantsOf(es, old(repo.rows))));
        TakesAdvances(old(repo.rows), repo.rows, Ids(es), now);
        TakesGrants(old(repo.rows), repo.rows, es, now);
      }
    }

    method TakeStuck(repo: Repository, room: int, cutoff: int, now: int, fault: bool)
      returns (es: seq<Event>, ghost c: Option<Claim>)
      requires Normalized(cfg) && room > 0
      modifies repo`rows, repo`grants
      ensures Handed(es, GrantsIn(c), old(repo.grants), repo.grants) && Advances(old(repo.rows), repo.rows)
      ensures StuckLayer(c, room, cutoff, cfg.maxDispatchAttempts, fault)
      ensures c.value.table == old(repo.rows) && c.value.locked == repo.locked
    {
      var reply, stuck := repo.ResetStuckProcessing(room, cutoff, cfg.maxDispatchAttempts, now, fault);
      es, c := [], Some(Claim(old(repo.rows), repo.locked, true, room, [], []));
      if reply.Ok? {
        es := reply.value;
        c := Some(Claim(old(repo.rows), repo.locked, false, room, stuck, GrantsOf(es, old(repo.rows))));
        RetakesAdvances(old(repo.rows), repo.rows, stuck, cfg.maxDispatchAttempts, now);
        RetakesGrants(old(repo.rows), repo.rows, es, stuck, cfg.maxDispatchAttempts, now);
      }
    }

    method CollectPriorityEvents(repo: Repository, budget: int, now: int, down: nat -> bool)
      returns (events: seq<Event>, ghost cs: seq<Claim>)
      modifies repo`rows, repo`locked, repo`grants
      ensures Handed(events, Flatten(cs), old(repo.grants), repo.grants) && Advances(old(repo.rows), repo.rows)
      ensures PriorityLayer(cs, cfg.priorityTypes, budget, down)
    {
      events, cs := [], [];
      if budget <= 0 || cfg.priorityTypes == [] {
        return;
      }
      for i := 0 to |cfg.priorityTypes|
        invariant |cs| == i
        invariant Handed(events, Flatten(cs), old(repo.grants), repo.grants) && Advances(old(repo.rows), repo.rows)
        invariant forall k :: 0 <= k < |cs| ==> PriorityTurn(cs, cfg.priorityTypes, budget, down, k)
      {
        assert |Ids(events)| == |Flatten(cs)|;
        var remaining := budget - |events|;
        if remaining <= 0 {
          return;
        }
        ghost var t, log := repo.rows, repo.grants;
        OthersAct(repo);
        ghost var u := repo.rows;
        var more, c := TakePendingByType(repo, cfg.priorityTypes[i], remaining, now, down(i));
        AdvancesCompose(t, u, repo.rows);
        AdvancesCompose(old(repo.rows), t, repo.rows);
        HandedMore(events, Flatten(cs), more, c.grants, old(repo.grants), log, repo.grants);
        TurnMore(cs, c, cfg.priorityTypes, budget, down);
        events, cs := events + more, cs + [c];
      }
    }

    // The other layers, each with the room that is left; one without room ends the cycle.

    method ClaimPending(repo: Repository, room: int, now: int, fault: bool)
      returns (events: seq<Event>, ghost pending: Option<Claim>)
      modifies repo`rows, repo`locked, repo`grants
      ensures Handed(events, GrantsIn(pending), old(repo.grants), repo.grants) && Advances(old(repo.rows), repo.rows)
      ensures PendingLayer(pending, true, room, fault)
    {
      events, pending := [], None;
      if room <= 0 {
        return;
      }
      OthersAct(repo);
      ghost var u := repo.rows;
      var clock := Later(now);
      events, pending := TakePending(repo, room, clock, fault);
      AdvancesCompose(old(repo.rows), u, repo.rows);
    }

    method ClaimFailed(repo: Repository, room: int, cutoff: int, now: int, down: bool, downNext: bool)
      returns (events: seq<Event>, ghost failed: Option<Claim>, ghost pending: Option<Claim>)
      requires Normalized(cfg)
      modifies repo`rows, repo`locked, repo`grants
      ensures Handed(events, GrantsIn(failed) + GrantsIn(pending), old(repo.grants), repo.grants)
      ensures Advances(old(repo.rows), repo.rows)
      ensures FailedLayer(failed, true, Min(room, cfg.maxFailedPerBatch), cutoff, cfg.maxDispatchAttempts, down)
      ensures PendingLayer(pending, failed.Some?, room - |GrantsIn(failed)|, downNext)
    {
      events, failed, pending := [], None, None;
      var limit := Min(room, cfg.maxFailedPerBatch);
      if limit <= 0 {
        return;
      }
      OthersAct(repo);
      ghost var u := repo.rows;
      var clock := Later(now);
      var taken, claim := TakeFailed(repo, limit, cutoff, clock, down);
      ghost var v, log := repo.rows, repo.grants;
      assert |Ids(taken)| == |GrantsIn(claim)|;
      var rest, left := ClaimPending(repo, room - |taken|, clock, downNext);
      AdvancesCompose(old(repo.rows), u, v);
      AdvancesCompose(old(repo.rows), v, repo.rows);
      HandedMore(taken, GrantsIn(claim), rest, GrantsIn(left), old(repo.grants), log, repo.grants);
      events, failed, pending := taken + rest, claim, left;
    }

    method ClaimStuck(repo: Repository, room: int, now: int, down: nat -> bool)
      returns (events: seq<Event>,
               ghost stuck: Option<Claim>, ghost failed: Option<Claim>, ghost pending: Option<Claim>)
      requires Normalized(cfg)
      modifies repo`rows, repo`locked, repo`grants
      ensures Handed(events, GrantsIn(stuck) + (GrantsIn(failed) + GrantsIn(pending)), old(repo.grants), repo.grants)
      ensures Advances(old(repo.rows), repo.rows)
      ensures StuckLayer(stuck, room, now - cfg.processingTimeout, cfg.maxDispatchAttempts, down(|cfg.priorityTypes|))
      ensures FailedLayer(failed, stuck.Some?, Min(room - |GrantsIn(stuck)|, cfg.maxFailedPerBatch),
                          now - cfg.retryWindow, cfg.maxDispatchAttempts, down(|cfg.priorityTypes| + 1))
      ensures PendingLayer(pending, failed.Some?, room - |GrantsIn(stuck)| - |GrantsIn(failed)|,
                           down(|cfg.priorityTypes| + 2))
    {
      var n := |cfg.priorityTypes|;
      var failedBefore, processingBefore := now - cfg.retryWindow, now - cfg.processingTimeout;
      events, stuck, failed, pending := [], None, None, None;
      if room <= 0 {
        return;
      }
      OthersAct(repo);
      ghost var u := repo.rows;
      var clock := Later(now);
      var taken, claim := TakeStuck(repo, room, processingBefore, clock, down(n));
      ghost var v, log := repo.rows, repo.grants;
      assert |Ids(taken)| == |GrantsIn(claim)|;
      var rest, next, last := ClaimFailed(repo, room - |taken|, failedBefore, clock, down(n + 1), down(n + 2));
      AdvancesCompose(old(repo.rows), u, v);
      AdvancesCompose(old(repo.rows), v, repo.rows);
      HandedMore(taken, GrantsIn(claim), rest, GrantsIn(next) + GrantsIn(last), old(repo.grants), log, repo.grants);
      events, stuck, failed, pending := taken + rest, claim, next, last;
    }

    method ClaimRest(repo: Repository, room: int, now: int, down: nat -> bool)
      returns (events: seq<Event>,
               ghost stuck: Option<Claim>, ghost failed: Option<Claim>, ghost pending: Option<Claim>)
      requires Normalized(cfg)
      modifies repo`rows, repo`locked, repo`grants
      ensures Handed(events, GrantsIn(stuck) + (GrantsIn(failed) + GrantsIn(pending)), old(repo.grants), repo.grants)
      ensures Advances(old(repo.rows), repo.rows) && AfterPriority(stuck, failed, pending, room, cfg, now, down)
    {
      events, stuck, failed, pending := ClaimStuck(repo, room, now, down);
      LaterLayers(stuck, failed, pending, room, cfg, now, down);
    }

    /** The four claims of a cycle, each limited by the room the earlier ones left in the batch; the
        first that finds no room ends the cycle. */
    method ClaimLayers(repo: Repository, now: int, down: nat -> bool) returns (events: seq<Event>, ghost layers: Layers)
      requires Normalized(cfg)
      modifies repo`rows, repo`locked, repo`grants
      ensures Handed(events, layers.All(), old(repo.grants), repo.grants) && Advances(old(repo.rows), repo.rows)
      ensures IsCycle(layers, cfg, now, down)
    {
      var priority, first := CollectPriorityEvents(repo, Min(cfg.priorityBudget, cfg.batchSize), now, down);
      ghost var t, log := repo.rows, repo.grants;
      assert |Ids(priority)| == |Flatten(first)|;
      var rest, stuck, failed, pending := ClaimRest(repo, cfg.batchSize - |priority|, now, down);
      AdvancesCompose(old(repo.rows), t, repo.rows);
      HandedMore(priority, Flatten(first), rest, GrantsIn(stuck) + (GrantsIn(failed) + GrantsIn(pending)),
                 old(repo.grants), log, repo.grants);
      events, layers := priority + rest, Layers(first, stuck, failed, pending);
    }

    /** A batch holds at most batchSize events with distinct ids, in layer order, and its ids are
        exactly those handed out in this cycle, whichever claim ended it and whatever other cycles did. */
    method CollectEvents(repo: Repository, now: int, down: nat -> bool)
      returns (events: seq<Event>, ghost layers: Layers)
      requires Normalized(cfg)
      modifies repo`rows, repo`locked, repo`grants
      ensures repo.grants == old(repo.grants) + layers.All() && Advances(old(repo.rows), repo.rows)
      ensures IsCycle(layers, cfg, now, down)
      ensures Ids(events) == FirstOccurrences(GrantIds(layers.All()))
      ensures |events| <= cfg.batchSize
    {
      var all, granted := ClaimLayers(repo, now, down);
      layers := granted;
      CycleFits(layers, cfg, now, down);
      events := DeduplicateEvents(all);
      assert |Ids(events)| == |events| && |Ids(all)| == |all|;
    }

    /** One publish with retries: handler calls until one succeeds, one fails for good, the wait for the
        next is interrupted or publishMaxAttempts calls were made. */
    method PublishWithRetry(id: Id, w: World) returns (sent: bool, nonRetryable: bool, calls: nat)
      requires Normalized(cfg)
      ensures sent <==> Succeeds(w, id, cfg.publishMaxAttempts)
      ensures nonRetryable <==> Condemns(w, id, cfg.publishMaxAttempts)
      ensures 1 <= calls <= cfg.publishMaxAttempts && TriedTo(w, id, calls - 1)
      ensures || w.answers(id, calls - 1) != RetryableError || w.interrupted(id, calls - 1)
              || calls == cfg.publishMaxAttempts
    {
      calls, sent, nonRetryable := 0, false, false;
      while calls < cfg.publishMaxAttempts
        invariant calls < cfg.publishMaxAttempts && TriedTo(w, id, calls) && !sent && !nonRetryable
        decreases cfg.publishMaxAttempts - calls
      {
        var reply := w.answers(id, calls);
        calls := calls + 1;
        if reply == Accepted {
          EndDecides(w, id, calls - 1, cfg.publishMaxAttempts);
          sent := true;
          return;
        }
        if reply == NonRetryableError {
          EndDecides(w, id, calls - 1, cfg.publishMaxAttempts);
          nonRetryable := true;
          return;
        }
        if calls == cfg.publishMaxAttempts {
          UsedUp(w, id, cfg.publishMaxAttempts);
          return;
        }
        if w.interrupted(id, calls - 1) {
          EndDecides(w, id, calls - 1, cfg.publishMaxAttempts);
          nonRetryable := w.final(id, calls - 1);
          return;
        }
      }
    }

    /** One event of the batch: publish, then record the outcome in the table as it is then. */
    method DispatchEvent(repo: Repository, id: Id, w: World, now: int)
      returns (published: bool, stored: bool, ghost seen: Table)
      requires Normalized(cfg)
      modifies repo`rows, repo`locked, repo`published
      ensures published <==> Succeeds(w, id, cfg.publishMaxAttempts)
      ensures Advances(old(repo.rows), seen)
      ensures stored <==> !w.updateFails(id) && id in seen && seen[id].status == Processing
      ensures repo.published == if published && stored then old(repo.published) + [id] else old(repo.published)
      ensures !stored ==> repo.rows == seen
      ensures stored ==>
                var was := seen[id];
                repo.rows == seen[id := if published then Row(was.eventType, Published, was.attempts, now)
                                        else if Condemns(w, id, cfg.publishMaxAttempts) then
                                          Row(was.eventType, Invalid, was.attempts, now)
                                        else if was.attempts + 1 < cfg.maxDispatchAttempts then
                                          Row(was.eventType, Failed, was.attempts + 1, now)
                                        else Row(was.eventType, Invalid, was.attempts + 1, now)]
    {
      var nonRetryable, calls;
      published, nonRetryable, calls := PublishWithRetry(id, w);
      OthersAct(repo);
      seen := repo.rows;
      var marked;
      if published {
        marked := repo.MarkPublished(id, now, w.updateFails(id));
      } else {
        marked := HandlePublishError(repo, id, nonRetryable, now, w.updateFails(id));
      }
      stored := marked.Ok?;
    }

    method HandlePublishError(repo: Repository, id: Id, nonRetryable: bool, now: int, fault: bool)
      returns (marked: Result<()>)
      requires Normalized(cfg)
      modifies repo`rows
      ensures marked.Ok? <==> !fault && id in old(repo.rows) && old(repo.rows)[id].status == Processing
      ensures marked.Err? ==> repo.rows == old(repo.rows)
      ensures marked.Ok? ==>
                var was := old(repo.rows)[id];
                repo.rows == old(repo.rows)[id := if nonRetryable then Row(was.eventType, Invalid, was.attempts, now)
                                                  else if was.attempts + 1 < cfg.maxDispatchAttempts then
                                                    Row(was.eventType, Failed, was.attempts + 1, now)
                                                  else Row(was.eventType, Invalid, was.attempts + 1, now)]
    {
      if nonRetryable {
        marked := repo.MarkInvalid(id, now, fault);
      } else {
        marked := repo.MarkFailed(id, cfg.maxDispatchAttempts, now, fault);
      }
    }

    /** The same, as the batch sees it: what was recorded before stays recorded. */
    method DispatchNext(repo: Repository, id: Id, w: World, now: int, ghost recorded: seq<Id>)
      returns (published: bool, stored: bool)
      requires Normalized(cfg) && AllPublished(repo.rows, recorded)
      modifies repo`rows, repo`locked, repo`published
      ensures published <==> Succeeds(w, id, cfg.publishMaxAttempts)
      ensures repo.published == if published && stored then old(repo.published) + [id] else old(repo.published)
      ensures Advances(old(repo.rows), repo.rows)
      ensures AllPublished(repo.rows, if published && stored then recorded + [id] else recorded)
    {
      var sent, marked, seen := DispatchEvent(repo, id, w, now);
      AdvancesCompose(old(repo.rows), seen, repo.rows);
      PublishedStays(old(repo.rows), repo.rows, recorded);
      published, stored := sent, marked;
    }

    /** The events of a batch one after the other, until the cycle is cancelled after `cancelAfter`. */
    method DispatchBatch(repo: Repository, events: seq<Event>, now: int, w: World, cancelAfter: nat)
      returns (r: DispatchResult, ghost recorded: seq<Id>)
      requires Normalized(cfg) && Distinct(Ids(events))
      modifies repo`rows, repo`locked, repo`published
      ensures r.processed == Min(|events|, cancelAfter)
      ensures r.published == Successes(w, Ids(events)[..r.processed], cfg.publishMaxAttempts)
      ensures r.failed == r.processed - r.published && r.stateUpdateFailed == r.published - |recorded|
      ensures DrawnFrom(recorded, Ids(events), r.processed, w, cfg.publishMaxAttempts)
      ensures Advances(old(repo.rows), repo.rows) && AllPublished(repo.rows, recorded)
      ensures repo.published == old(repo.published) + recorded
    {
      ghost var batch := Ids(events);
      recorded := [];
      var processed, published, failed, stateUpdateFailed := 0, 0, 0, 0;
      var clock := now;
      while processed < |events| && processed < cancelAfter
        invariant 0 <= processed <= |events| && processed <= cancelAfter
        invariant published == Successes(w, batch[..processed], cfg.publishMaxAttempts)
        invariant failed == processed - published && stateUpdateFailed == published - |recorded|
        invariant Advances(old(repo.rows), repo.rows) && AllPublished(repo.rows, recorded)
        invariant repo.published == old(repo.published) + recorded
        invariant DrawnFrom(recorded, batch, processed, w, cfg.publishMaxAttempts)
        decreases |events| - processed
      {
        clock := Later(clock);
        ghost var t := repo.rows;
        var sent, stored := DispatchNext(repo, events[processed].id, w, clock, recorded);
        AdvancesCompose(old(repo.rows), t, repo.rows);
        DrawMore(recorded, batch, processed, w, cfg.publishMaxAttempts);
        CountMore(w, batch, processed, cfg.publishMaxAttempts);
        if sent {
          published := published + 1;
          if stored {
            recorded := recorded + [events[processed].id];
          } else {
            stateUpdateFailed := stateUpdateFailed + 1;
          }
        } else {
          failed := failed + 1;
        }
        processed := processed + 1;
      }
      r := DispatchResult(processed, published, failed, stateUpdateFailed);
    }

    /** A whole cycle, cancelled after `cancelAfter` events.  Every event of the batch up to there is
        processed; published are exactly those whose delivery succeeds; the ones whose delivery could
        be recorded are PUBLISHED from then on. */
    method DispatchOnce(repo: Repository, now: int, w: World, cancelAfter: nat)
      returns (r: DispatchResult, ghost layers: Layers, ghost recorded: seq<Id>)
      requires Normalized(cfg)
      modifies repo
      ensures IsCycle(layers, cfg, now, w.down) && repo.grants == old(repo.grants) + layers.All()
      ensures var batch := FirstOccurrences(GrantIds(layers.All()));
              && r.processed == Min(|batch|, cancelAfter) <= cfg.batchSize
              && r.published == Successes(w, batch[..r.processed], cfg.publishMaxAttempts)
              && DrawnFrom(recorded, batch, r.processed, w, cfg.publishMaxAttempts)
      ensures r.failed == r.processed - r.published && r.stateUpdateFailed == r.published - |recorded|
      ensures Advances(old(repo.rows), repo.rows) && AllPublished(repo.rows, recorded)
      ensures repo.published == old(repo.published) + recorded
    {
      var events, claims := CollectEvents(repo, now, w.down);
      ghost var t := repo.rows;
      r, recorded := DispatchBatch(repo, events, now, w, cancelAfter);
      AdvancesCompose(old(repo.rows), t, repo.rows);
      layers := claims;
    }

    /** The order tenants are visited in: all of them, in a rotation that starts one further each cycle. */
    method TenantDispatchOrder(tenants: seq<string>) returns (ordered: seq<string>)
      modifies this`tenantTurn
      ensures multiset(ordered) == multiset(tenants)
      ensures |tenants| <= 1 ==> tenantTurn == old(tenantTurn)
      ensures |tenants| > 1 ==>
                && tenantTurn == NextTurn(old(tenantTurn), |tenants|)
                && |ordered| == |tenants|
                && (var start := old(tenantTurn) % |tenants|;
                    forall i :: 0 <= i < |ordered| ==>
                      ordered[i] == tenants[if start + i < |tenants| then start + i else start + i - |tenants|])
    {
      if |tenants| <= 1 {
        return tenants;
      }
      var start := tenantTurn % |tenants|;
      tenantTurn := (tenantTurn + 1) % |tenants|;
      ordered := tenants[start..] + tenants[..start];
      assert tenants == tenants[..start] + tenants[start..];
    }
  }
}
