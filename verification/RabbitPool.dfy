/** The RabbitMQ pool: calls in flight, interleaved step by step. A connection may also be closed by
    the broker at any time. */
module RabbitPool {
  import opened Options
  import opened ConnectionPool

  datatype Phase =
    | Idle
    | Hit(tenant: string)               // saw a live connection; about to take the write lock
    | Creating(tenant: string)          // about to check the cache again
    | Dialing(tenant: string)
    | Dialed(tenant: string, conn: nat) // about to take the lock and cache it
    | Discarding(tenant: string, conn: nat, result: Option<nat>) // about to close the one it dialed
    | Returned(tenant: string, result: Option<nat>)              // a connection, or an error

  datatype State = State(pool: Pool, calls: map<nat, Phase>)

  datatype Action =
    | Get(call: nat, id: string) | Refresh(call: nat, now: int) | Recheck(call: nat)
    | DialFails(call: nat) | DialSucceeds(call: nat)
    | Store(call: nat, victim: Option<string>, now: int) | Drop(call: nat)
    | BrokerCloses(conn: nat) | CloseConnection(id: string) | CloseManager

  function PhaseOf(s: State, call: nat): Phase { if call in s.calls then s.calls[call] else Idle }

  predicate Live(p: Pool, t: string) { t in p.cache && p.cache[t] !in p.shut }

  predicate Resting(phase: Phase) { phase.Idle? || phase.Returned? }

  predicate Enabled(s: State, a: Action) {
    match a
    case Get(call, _) => Resting(PhaseOf(s, call))
    case Refresh(call, _) => PhaseOf(s, call).Hit?
    case Recheck(call) => PhaseOf(s, call).Creating?
    case DialFails(call) => PhaseOf(s, call).Dialing?
    case DialSucceeds(call) => PhaseOf(s, call).Dialing?
    case Store(call, victim, _) => PhaseOf(s, call).Dialed? && (victim.Some? ==> victim.value in s.pool.accessed)
    case Drop(call) => PhaseOf(s, call).Discarding?
    case BrokerCloses(conn) => conn < s.pool.Made()
    case _ => true
  }

  function Go(s: State, call: nat, phase: Phase): State { s.(calls := s.calls[call := phase]) }

  /** The pool after a dialed connection was offered to it. */
  function Offer(p: Pool, call: nat, t: string, c: nat, victim: Option<string>, now: int): Pool {
    if p.closed then p
    else if Live(p, t) then Touch(p, t, now)
    else Put(Evict(p, victim), call, t, c, now)
  }

  function ShutAll(p: Pool): Pool {
    p.(closed := true, shut := p.shut + p.cache.Values, cache := map[], accessed := map[])
  }

  function Apply(s: State, a: Action): State
    requires Enabled(s, a)
  {
    var p := s.pool;
    match a
    case Get(call, id) =>
      Go(s, call, if p.closed then Returned(id, None) else if Live(p, id) then Hit(id) else Creating(id))
    case Refresh(call, now) =>
      var t := PhaseOf(s, call).tenant;
      if Live(p, t) then Go(s, call, Returned(t, Some(p.cache[t]))).(pool := Touch(p, t, now))
      else Go(s, call, Creating(t))
    case Recheck(call) =>
      var t := PhaseOf(s, call).tenant;
      Go(s, call, if Live(p, t) then Returned(t, Some(p.cache[t]))
                  else if p.closed then Returned(t, None) else Dialing(t))
    case DialFails(call) => Go(s, call, Returned(PhaseOf(s, call).tenant, None))
    case DialSucceeds(call) =>
      var t := PhaseOf(s, call).tenant;
      Go(s, call, Dialed(t, p.Made())).(pool := Open(p, call, t))
    case Store(call, victim, now) =>
      var t, c := PhaseOf(s, call).tenant, PhaseOf(s, call).conn;
      Go(s, call, if p.closed then Discarding(t, c, None)
                  else if Live(p, t) then Discarding(t, c, Some(p.cache[t]))
                  else Returned(t, Some(c))).(
        pool := Offer(p, call, t, c, victim, now))
    case Drop(call) =>
      var phase := PhaseOf(s, call);
      Go(s, call, Returned(phase.tenant, phase.result)).(pool := Discard(p, call, phase.conn))
    case BrokerCloses(conn) => s.(pool := Shut(p, conn))
    case CloseConnection(id) => s.(pool := CloseOne(p, id))
    case CloseManager => s.(pool := ShutAll(p))
  }

  ghost predicate IsPath(states: seq<State>, actions: seq<Action>) {
    && |states| == |actions| + 1
    && forall k :: 0 <= k < |actions| ==>
         Enabled(states[k], actions[k]) && states[k + 1] == Apply(states[k], actions[k])
  }

  ghost predicate IsRun(states: seq<State>, actions: seq<Action>) {
    IsPath(states, actions) && states[0] == State(EMPTY, map[])
  }

  /** The connection in a call's local variable. */
  function Local(phase: Phase): set<nat> { if phase.Dialed? || phase.Discarding? then {phase.conn} else {} }

  /** What a call has dialed or is going to return is a connection of its own tenant. */
  predicate Own(p: Pool, phase: Phase) {
    match phase
    case Dialed(t, c) => IsFor(p, c, t)
    case Discarding(t, c, result) => IsFor(p, c, t) && (result.Some? ==> IsFor(p, result.value, t))
    case Returned(t, result) => result.Some? ==> IsFor(p, result.value, t)
    case _ => true
  }

  ghost predicate SafeState(s: State) {
    && Inv(s.pool)
    && (forall call :: HeldBy(s.pool, call) == Local(PhaseOf(s, call)))
    && (forall call :: Own(s.pool, PhaseOf(s, call)))
  }

  lemma OfferKeeps(p: Pool, call: nat, t: string, c: nat, victim: Option<string>, now: int)
    requires Inv(p) && HeldBy(p, call) == {c} && IsFor(p, c, t)
    ensures Inv(Offer(p, call, t, c, victim, now))
    ensures HeldBy(Offer(p, call, t, c, victim, now), call) == if p.closed || Live(p, t) then {c} else {}
    ensures forall other :: other != call ==> HeldBy(Offer(p, call, t, c, victim, now), other) == HeldBy(p, other)
  {
    if !p.closed && Live(p, t) {
      TouchKeeps(p, t, now);
    } else if !p.closed {
      if victim.Some? {
        CloseOneKeeps(p, victim.value);
      }
      PutKeeps(Evict(p, victim), call, t, c, now);
    }
  }

  lemma ShutAllKeeps(p: Pool)
    requires Inv(p)
    ensures Inv(ShutAll(p))
  {
    var q := ShutAll(p);
    assert forall d, x :: At(q, d, x) ==> At(p, d, x);
    forall d: nat | d < q.Made() && d !in q.shut ensures exists x :: At(q, d, x) {
      var x :| At(p, d, x);
      assert At(q, d, x);
    }
  }

  lemma StepKeepsPool(s: State, a: Action)
    requires SafeState(s) && Enabled(s, a)
    ensures Inv(Apply(s, a).pool)
  {
    var p := s.pool;
    match a
    case Refresh(call, now) =>
      if Live(p, PhaseOf(s, call).tenant) {
        TouchKeeps(p, PhaseOf(s, call).tenant, now);
      }
    case DialSucceeds(call) => OpenKeeps(p, call, PhaseOf(s, call).tenant);
    case Store(call, victim, now) =>
      assert Own(p, PhaseOf(s, call));
      OfferKeeps(p, call, PhaseOf(s, call).tenant, PhaseOf(s, call).conn, victim, now);
    case Drop(call) => DiscardKeeps(p, call, PhaseOf(s, call).conn);
    case BrokerCloses(conn) => ShutKeeps(p, conn);
    case CloseConnection(id) => CloseOneKeeps(p, id);
    case CloseManager => ShutAllKeeps(p);
    case _ =>
  }

  lemma StepKeepsHeld(s: State, a: Action, call: nat)
    requires SafeState(s) && Enabled(s, a)
    ensures HeldBy(Apply(s, a).pool, call) == Local(PhaseOf(Apply(s, a), call))
  {
    assert HeldBy(s.pool, call) == Local(PhaseOf(s, call));
    if a.Store? {
      assert Own(s.pool, PhaseOf(s, a.call));
      OfferKeeps(s.pool, a.call, PhaseOf(s, a.call).tenant, PhaseOf(s, a.call).conn, a.victim, a.now);
    }
  }

  lemma StepKeepsOwn(s: State, a: Action, call: nat)
    requires SafeState(s) && Enabled(s, a)
    ensures Own(Apply(s, a).pool, PhaseOf(Apply(s, a), call))
  {
    assert Own(s.pool, PhaseOf(s, call));
    if a.Refresh? || a.Recheck? || a.Store? {
      assert PhaseOf(s, a.call).tenant in s.pool.cache ==>
          IsFor(s.pool, s.pool.cache[PhaseOf(s, a.call).tenant], PhaseOf(s, a.call).tenant);
    }
  }

  /** Every reachable state: no connection leaks, every cached or returned connection was dialed for the
      tenant it is cached or returned for, and the two maps have the same keys. */
  lemma {:induction false} NoConnectionLeaks(states: seq<State>, actions: seq<Action>, n: nat)
    requires IsRun(states, actions) && n < |states|
    ensures SafeState(states[n])
  {
    if n > 0 {
      NoConnectionLeaks(states, actions, n - 1);
      StepKeepsPool(states[n - 1], actions[n - 1]);
      forall call: nat ensures HeldBy(states[n].pool, call) == Local(PhaseOf(states[n], call)) {
        StepKeepsHeld(states[n - 1], actions[n - 1], call);
      }
      forall call: nat ensures Own(states[n].pool, PhaseOf(states[n], call)) {
        StepKeepsOwn(states[n - 1], actions[n - 1], call);
      }
    }
  }

  // ---------- what is held is given up ----------

  /** A step of the given call. */
  predicate By(a: Action, call: nat) {
    match a
    case BrokerCloses(_) => false
    case CloseConnection(_) => false
    case CloseManager => false
    case _ => a.call == call
  }

  /** A call that holds a connection has a step it can take, and its only steps are to offer the
      connection to the pool and to close it. */
  lemma HolderMustGiveUp(s: State, call: nat, now: int)
    requires SafeState(s) && HeldBy(s.pool, call) != {}
    ensures Enabled(s, Store(call, None, now)) || Enabled(s, Drop(call))
    ensures forall a :: Enabled(s, a) && By(a, call) ==> a.Store? || a.Drop?
  {
    assert Local(PhaseOf(s, call)) != {};
  }

  /** Whatever step any call takes, a held connection stays with its holder, is closed or is cached. */
  lemma HeldStaysOrSettles(s: State, a: Action, call: nat, c: nat)
    requires SafeState(s) && Enabled(s, a) && c in HeldBy(s.pool, call)
    ensures Settled(Apply(s, a).pool, c) ||
            (c in HeldBy(Apply(s, a).pool, call)
             && (By(a, call) ==> PhaseOf(s, call).Dialed? && PhaseOf(Apply(s, a), call).Discarding?))
    ensures !By(a, call) ==> PhaseOf(Apply(s, a), call) == PhaseOf(s, call)
  {
    assert HeldBy(s.pool, call) == Local(PhaseOf(s, call));
    StepKeepsHeld(s, a, call);
    if a.Store? && a.call == call && !s.pool.closed && !Live(s.pool, PhaseOf(s, call).tenant) {
      assert At(Apply(s, a).pool, c, InCache(PhaseOf(s, call).tenant));
    }
  }

  /** The steps of the call among actions m to n. */
  function OwnSteps(actions: seq<Action>, m: nat, n: nat, call: nat): nat
    requires m <= n <= |actions|
  {
    if m == n then 0 else OwnSteps(actions, m, n - 1, call) + if By(actions[n - 1], call) then 1 else 0
  }

  /** Some state up to n in which the connection was settled, or m if its holder still holds it. */
  lemma {:induction false} HolderProgress(states: seq<State>, actions: seq<Action>, m: nat, n: nat, call: nat, c: nat)
    returns (k: nat)
    requires IsRun(states, actions) && m <= n < |states| && c in HeldBy(states[m].pool, call)
    ensures m <= k <= n
    ensures k > m ==> Settled(states[k].pool, c)
    ensures k == m ==> c in HeldBy(states[n].pool, call)
                       && OwnSteps(actions, m, n, call) <= if PhaseOf(states[n], call).Discarding? then 1 else 0
  {
    k := m;
    if m < n {
      k := HolderProgress(states, actions, m, n - 1, call, c);
      if k == m {
        NoConnectionLeaks(states, actions, n - 1);
        HeldStaysOrSettles(states[n - 1], actions[n - 1], call, c);
        if Settled(states[n].pool, c) {
          k := n;
        }
      }
    }
  }

  /** In every run, two steps of its own after it held a connection, a call has closed or cached it. */
  lemma HeldForTwoStepsAtMost(states: seq<State>, actions: seq<Action>, m: nat, n: nat, call: nat, c: nat)
    requires IsRun(states, actions) && m <= n < |states| && c in HeldBy(states[m].pool, call)
    requires OwnSteps(actions, m, n, call) >= 2
    ensures exists k :: m < k <= n && Settled(states[k].pool, c)
  {
    var k := HolderProgress(states, actions, m, n, call, c);
    assert k > m && Settled(states[k].pool, c);
  }

  lemma {:induction false} ClosedForGood(states: seq<State>, actions: seq<Action>, m: nat, n: nat)
    requires IsRun(states, actions) && m <= n < |states| && states[m].pool.closed
    ensures states[n].pool.closed
  {
    if m < n {
      ClosedForGood(states, actions, m, n - 1);
    }
  }

  /** After Close the cache stays empty, and once no call holds a connection everything ever opened is shut. */
  lemma CloseShutsEverything(states: seq<State>, actions: seq<Action>, m: nat, n: nat)
    requires IsRun(states, actions) && m < n < |states| && actions[m].CloseManager?
    ensures states[n].pool.cache == map[] && states[n].pool.accessed == map[]
    ensures (forall call :: Local(PhaseOf(states[n], call)) == {}) ==>
              forall c: nat :: c < states[n].pool.Made() ==> c in states[n].pool.shut
  {
    ClosedForGood(states, actions, m + 1, n);
    NoConnectionLeaks(states, actions, n);
    if forall call :: Local(PhaseOf(states[n], call)) == {} {
      NothingLeftOpen(states[n].pool);
    }
  }

  // ---------- what calls return ----------

  /** The step at which a call decides what it returns, and what it decides. */
  ghost predicate Decides(s: State, a: Action, call: nat, t: string, result: Option<nat>)
    requires Enabled(s, a)
  {
    && By(a, call) && !a.Drop?
    && (PhaseOf(Apply(s, a), call) == Returned(t, result)
        || exists c :: PhaseOf(Apply(s, a), call) == Discarding(t, c, result))
  }

  /** A call decides for the connection cached for its tenant at that moment, one it found live or has
      just cached, and for an error only if the manager is closed or the dial failed. */
  lemma ReturnsCached(s: State, a: Action, call: nat, t: string, result: Option<nat>)
    requires SafeState(s) && Enabled(s, a) && Decides(s, a, call, t, result)
    ensures result.Some? ==> At(Apply(s, a).pool, result.value, InCache(t))
    ensures result.Some? ==> result.value !in s.pool.shut || PhaseOf(s, call) == Dialed(t, result.value)
    ensures result.None? ==> s.pool.closed || a.DialFails?
    ensures result.Some? && !a.Recheck? ==> Apply(s, a).pool.accessed[t] == a.now
  {
  }

  /** Having decided, it returns just that, once it has closed the connection it does not need. */
  lemma DropReturnsDecided(s: State, call: nat)
    requires SafeState(s) && Enabled(s, Drop(call))
    ensures var phase := PhaseOf(s, call);
            && PhaseOf(Apply(s, Drop(call)), call) == Returned(phase.tenant, phase.result)
            && phase.conn in Apply(s, Drop(call)).pool.shut
  {
  }

  /** Every connection that is returned was dialed for the tenant that asked. */
  lemma TenantsAreIsolated(states: seq<State>, actions: seq<Action>, n: nat, call: nat, t: string, c: nat)
    requires IsRun(states, actions) && n < |states|
    ensures PhaseOf(states[n], call) == Returned(t, Some(c)) ==> IsFor(states[n].pool, c, t)
    ensures t in states[n].pool.cache ==> IsFor(states[n].pool, states[n].pool.cache[t], t)
  {
    NoConnectionLeaks(states, actions, n);
    assert Own(states[n].pool, PhaseOf(states[n], call));
  }

  /** Caching a connection evicts at most the victim, whose connection is closed, and touches nobody else. */
  lemma StoreEffect(s: State, a: Action)
    requires SafeState(s) && Enabled(s, a) && a.Store? && !s.pool.closed && !Live(s.pool, PhaseOf(s, a.call).tenant)
    ensures a.victim.Some? ==> a.victim.value in s.pool.cache
    ensures var p, q, t := s.pool, Apply(s, a).pool, PhaseOf(s, a.call).tenant;
            var gone := if a.victim.Some? then {a.victim.value} else {};
            && q.cache == (p.cache - gone)[t := PhaseOf(s, a.call).conn]
            && q.accessed == (p.accessed - gone)[t := a.now]
            && q.shut == p.shut + (if a.victim.Some? then {p.cache[a.victim.value]} else {})
  {
    assert s.pool.cache - {} == s.pool.cache && s.pool.accessed - {} == s.pool.accessed;
  }

  /** CloseConnection closes the connection of its tenant and drops its entry; Close does so for all. */
  lemma CloseEffect(s: State, id: string)
    requires SafeState(s)
    ensures var p, q := s.pool, Apply(s, CloseConnection(id)).pool;
            && q.cache == p.cache - {id} && q.accessed == p.accessed - {id} && q.closed == p.closed
            && q.shut == p.shut + (if id in p.cache then {p.cache[id]} else {})
    ensures var p, q := s.pool, Apply(s, CloseManager).pool;
            && q.closed && q.cache == map[] && q.accessed == map[]
            && forall t :: t in p.cache ==> p.cache[t] in q.shut
  {
  }

  // ---------- calls can succeed ----------

  ghost predicate Serves(s: State, call: nat, t: string, states: seq<State>, actions: seq<Action>) {
    && IsPath(states, actions) && states[0] == s
    && var last := states[|states| - 1];
       && Live(last.pool, t) && PhaseOf(last, call) == Returned(t, Some(last.pool.cache[t]))
  }

  lemma HitServes(s: State, call: nat, t: string, now: int) returns (states: seq<State>, actions: seq<Action>)
    requires SafeState(s) && Resting(PhaseOf(s, call)) && !s.pool.closed && Live(s.pool, t)
    ensures Serves(s, call, t, states, actions) && |actions| == 2
  {
    var s1 := Apply(s, Get(call, t));
    states, actions := [s, s1, Apply(s1, Refresh(call, now))], [Get(call, t), Refresh(call, now)];
  }

  lemma DialServes(s: State, call: nat, t: string, now: int) returns (states: seq<State>, actions: seq<Action>)
    requires SafeState(s) && Resting(PhaseOf(s, call)) && !s.pool.closed && !Live(s.pool, t)
    requires s.pool.Made() !in s.pool.shut
    ensures Serves(s, call, t, states, actions) && |actions| == 4
  {
    var s1 := Apply(s, Get(call, t));
    var s2 := Apply(s1, Recheck(call));
    var s3 := Apply(s2, DialSucceeds(call));
    var s4 := Apply(s3, Store(call, None, now));
    states := [s, s1, s2, s3, s4];
    actions := [Get(call, t), Recheck(call), DialSucceeds(call), Store(call, None, now)];
  }

  /** Connections that were never opened are not closed either. */
  lemma {:induction false} ShutWasMade(states: seq<State>, actions: seq<Action>, n: nat, c: nat)
    requires IsRun(states, actions) && n < |states| && c in states[n].pool.shut
    ensures c < states[n].pool.Made()
  {
    if n > 0 {
      NoConnectionLeaks(states, actions, n - 1);
      StepShuts(states[n - 1], actions[n - 1], c);
      if c in states[n - 1].pool.shut {
        ShutWasMade(states, actions, n - 1, c);
      }
    }
  }

  lemma StepShuts(s: State, a: Action, c: nat)
    requires SafeState(s) && Enabled(s, a)
    ensures Apply(s, a).pool.Made() >= s.pool.Made()
    ensures c in Apply(s, a).pool.shut && c !in s.pool.shut ==> c < s.pool.Made()
  {
    if a.Drop? {
      assert At(s.pool, PhaseOf(s, a.call).conn, InFlight(a.call));
    }
    if c in s.pool.cache.Values {
      var t :| t in s.pool.cache && s.pool.cache[t] == c;
      assert At(s.pool, c, InCache(t));
    }
    if a.CloseConnection? && a.id in s.pool.cache {
      assert At(s.pool, s.pool.cache[a.id], InCache(a.id));
    }
    if a.Store? && a.victim.Some? && a.victim.value in s.pool.cache {
      assert At(s.pool, s.pool.cache[a.victim.value], InCache(a.victim.value));
    }
  }

  /** From every reachable state of an open manager a call can get a live connection of its tenant. */
  lemma CallCanSucceed(run: seq<State>, done: seq<Action>, n: nat, call: nat, t: string, now: int)
    returns (states: seq<State>, actions: seq<Action>)
    requires IsRun(run, done) && n < |run| && Resting(PhaseOf(run[n], call)) && !run[n].pool.closed
    ensures Serves(run[n], call, t, states, actions) && |actions| <= 4
  {
    NoConnectionLeaks(run, done, n);
    if Live(run[n].pool, t) {
      states, actions := HitServes(run[n], call, t, now);
    } else {
      if run[n].pool.Made() in run[n].pool.shut {
        ShutWasMade(run, done, n, run[n].pool.Made());
      }
      states, actions := DialServes(run[n], call, t, now);
    }
  }
}
