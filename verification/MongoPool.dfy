/** The MongoDB pool: as the RabbitMQ pool, but connections are pinged before reuse and those taken
    out of the cache are disconnected outside the lock. */
module MongoPool {
  import opened Options
  import opened ConnectionPool

  datatype Phase =
    | Idle
    | Pinging(tenant: string, conn: nat)           // GetConnection found a cached connection
    | Creating(tenant: string)
    | Reusing(tenant: string, conn: nat)           // createConnection found one and pings it
    | Unhealthy(tenant: string, conn: nat)         // about to disconnect it
    | Stale(tenant: string, conn: nat)             // about to drop its entry if it is still there
    | Connecting(tenant: string)
    | Connected(tenant: string, conn: nat)         // about to take the lock and cache it
    | Closing(conns: set<nat>, next: Option<string>) // disconnects what it captured, then creates for next
    | Returned(tenant: string, result: Option<nat>)  // a connection, or an error

  datatype State = State(pool: Pool, calls: map<nat, Phase>)

  datatype Action =
    | Get(call: nat, id: string) | PingSucceeds(call: nat, now: int) | PingFails(call: nat)
    | Snapshot(call: nat) | ReuseSucceeds(call: nat, now: int) | ReuseFails(call: nat)
    | DisconnectUnhealthy(call: nat) | DropStale(call: nat)
    | ConnectFails(call: nat) | ConnectSucceeds(call: nat) | Store(call: nat, victim: Option<string>, now: int)
    | CloseConnection(call: nat, id: string) | CloseManager(call: nat)
    | Disconnect(call: nat, conn: nat) | Done(call: nat)

  function PhaseOf(s: State, call: nat): Phase { if call in s.calls then s.calls[call] else Idle }

  predicate Resting(phase: Phase) { phase.Idle? || phase.Returned? }

  predicate Enabled(s: State, a: Action) {
    var phase := PhaseOf(s, a.call);
    match a
    case Get(_, _) => Resting(phase)
    case PingSucceeds(_, _) => phase.Pinging?
    case PingFails(_) => phase.Pinging?
    case Snapshot(_) => phase.Creating?
    case ReuseSucceeds(_, _) => phase.Reusing?
    case ReuseFails(_) => phase.Reusing?
    case DisconnectUnhealthy(_) => phase.Unhealthy?
    case DropStale(_) => phase.Stale?
    case ConnectFails(_) => phase.Connecting?
    case ConnectSucceeds(_) => phase.Connecting?
    case Store(_, victim, _) => phase.Connected? && (victim.Some? ==> victim.value in s.pool.accessed)
    case CloseConnection(_, _) => Resting(phase)
    case CloseManager(_) => Resting(phase)
    case Disconnect(_, conn) => phase.Closing? && conn in phase.conns
    case Done(_) => phase.Closing? && phase.conns == {}
  }

  function Go(s: State, call: nat, phase: Phase): State { s.(calls := s.calls[call := phase]) }

  /** The pool after a new connection was offered to it; a connection it has no use for is
      disconnected under the lock. */
  function Offer(p: Pool, call: nat, t: string, c: nat, victim: Option<string>, now: int): Pool {
    if p.closed then Discard(p, call, c)
    else if t in p.cache then Touch(Discard(p, call, c), t, now)
    else Put(Evict(p, victim), call, t, c, now)
  }

  ghost function Taken(p: Pool, ts: set<string>): set<nat> { set t | t in ts && t in p.cache :: p.cache[t] }

  ghost function Apply(s: State, a: Action): State
    requires Enabled(s, a)
  {
    var p, call, phase := s.pool, a.call, PhaseOf(s, a.call);
    match a
    case Get(_, id) =>
      Go(s, call, if p.closed then Returned(id, None)
                  else if id in p.cache then Pinging(id, p.cache[id]) else Creating(id))
    case PingSucceeds(_, now) =>
      if phase.tenant in p.cache then
        Go(s, call, Returned(phase.tenant, Some(phase.conn))).(pool := Touch(p, phase.tenant, now))
      else Go(s, call, Creating(phase.tenant))
    case PingFails(_) =>
      Go(s, call, Closing(Taken(p, {phase.tenant}), Some(phase.tenant))).(pool := Capture(p, call, {phase.tenant}))
    case Snapshot(_) =>
      Go(s, call, if p.closed then Returned(phase.tenant, None)
                  else if phase.tenant in p.cache then Reusing(phase.tenant, p.cache[phase.tenant])
                  else Connecting(phase.tenant))
    case ReuseSucceeds(_, now) =>
      if At(p, phase.conn, InCache(phase.tenant)) then
        Go(s, call, Returned(phase.tenant, Some(phase.conn))).(pool := Touch(p, phase.tenant, now))
      else Go(s, call, Connecting(phase.tenant))
    case ReuseFails(_) => Go(s, call, Unhealthy(phase.tenant, phase.conn))
    case DisconnectUnhealthy(_) => Go(s, call, Stale(phase.tenant, phase.conn)).(pool := Shut(p, phase.conn))
    case DropStale(_) =>
      Go(s, call, Connecting(phase.tenant)).(
        pool := if At(p, phase.conn, InCache(phase.tenant)) then Remove(p, phase.tenant) else p)
    case ConnectFails(_) => Go(s, call, Returned(phase.tenant, None))
    case ConnectSucceeds(_) =>
      Go(s, call, Connected(phase.tenant, p.Made())).(pool := Open(p, call, phase.tenant))
    case Store(_, victim, now) =>
      Go(s, call, Returned(phase.tenant, if p.closed then None
                                         else if phase.tenant in p.cache then Some(p.cache[phase.tenant])
                                         else Some(phase.conn))).(
        pool := Offer(p, call, phase.tenant, phase.conn, victim, now))
    case CloseConnection(_, id) => Go(s, call, Closing(Taken(p, {id}), None)).(pool := Capture(p, call, {id}))
    case CloseManager(_) =>
      Go(s, call, Closing(Taken(p, p.cache.Keys), None)).(pool := Capture(p, call, p.cache.Keys).(closed := true))
    case Disconnect(_, conn) => Go(s, call, phase.(conns := phase.conns - {conn})).(pool := Discard(p, call, conn))
    case Done(_) => Go(s, call, if phase.next.Some? then Creating(phase.next.value) else Idle)
  }

  ghost predicate IsPath(states: seq<State>, actions: seq<Action>) {
    && |states| == |actions| + 1
    && forall k :: 0 <= k < |actions| ==>
         Enabled(states[k], actions[k]) && states[k + 1] == Apply(states[k], actions[k])
  }

  ghost predicate IsRun(states: seq<State>, actions: seq<Action>) {
    IsPath(states, actions) && states[0] == State(EMPTY, map[])
  }

  /** The connections a call has in local variables and is responsible for. */
  function Local(phase: Phase): set<nat> {
    match phase
    case Connected(_, c) => {c}
    case Closing(cs, _) => cs
    case _ => {}
  }

  /** The connection a call works on or returns is one of its own tenant. */
  predicate Own(p: Pool, phase: Phase) {
    match phase
    case Pinging(t, c) => IsFor(p, c, t)
    case Reusing(t, c) => IsFor(p, c, t)
    case Unhealthy(t, c) => IsFor(p, c, t)
    case Stale(t, c) => IsFor(p, c, t)
    case Connected(t, c) => IsFor(p, c, t)
    case Returned(t, result) => result.Some? ==> IsFor(p, result.value, t)
    case _ => true
  }

  ghost predicate SafeState(s: State) {
    && Inv(s.pool)
    && (forall call :: Own(s.pool, PhaseOf(s, call)))
    && (forall call :: HeldBy(s.pool, call) == Local(PhaseOf(s, call)))
    && (forall call :: PhaseOf(s, call).Stale? ==> PhaseOf(s, call).conn in s.pool.shut)
  }

  lemma OfferKeeps(p: Pool, call: nat, t: string, c: nat, victim: Option<string>, now: int)
    requires Inv(p) && HeldBy(p, call) == {c} && IsFor(p, c, t)
    ensures Inv(Offer(p, call, t, c, victim, now)) && HeldBy(Offer(p, call, t, c, victim, now), call) == {}
    ensures forall other :: other != call ==> HeldBy(Offer(p, call, t, c, victim, now), other) == HeldBy(p, other)
  {
    if p.closed || t in p.cache {
      DiscardKeeps(p, call, c);
      if !p.closed {
        TouchKeeps(Discard(p, call, c), t, now);
      }
    } else {
      if victim.Some? {
        CloseOneKeeps(p, victim.value);
      }
      PutKeeps(Evict(p, victim), call, t, c, now);
    }
  }

  lemma CaptureAllKeeps(p: Pool, call: nat)
    requires Inv(p)
    ensures Inv(Capture(p, call, p.cache.Keys).(closed := true))
  {
    CaptureKeeps(p, call, p.cache.Keys);
    var q := Capture(p, call, p.cache.Keys);
    assert q.cache == map[];
    assert forall d, x :: At(q.(closed := true), d, x) <==> At(q, d, x);
  }

  lemma StepKeepsPool(s: State, a: Action)
    requires SafeState(s) && Enabled(s, a)
    ensures Inv(Apply(s, a).pool)
  {
    var p, call, phase := s.pool, a.call, PhaseOf(s, a.call);
    assert Own(p, phase);
    match a
    case PingSucceeds(_, now) => if phase.tenant in p.cache { TouchKeeps(p, phase.tenant, now); }
    case PingFails(_) => CaptureKeeps(p, call, {phase.tenant});
    case ReuseSucceeds(_, now) => if phase.tenant in p.cache { TouchKeeps(p, phase.tenant, now); }
    case DisconnectUnhealthy(_) => ShutKeeps(p, phase.conn);
    case DropStale(_) => if At(p, phase.conn, InCache(phase.tenant)) { RemoveKeeps(p, phase.tenant); }
    case ConnectSucceeds(_) => OpenKeeps(p, call, phase.tenant);
    case Store(_, victim, now) => OfferKeeps(p, call, phase.tenant, phase.conn, victim, now);
    case CloseConnection(_, id) => CaptureKeeps(p, call, {id});
    case CloseManager(_) => CaptureAllKeeps(p, call);
    case Disconnect(_, conn) => DiscardKeeps(p, call, conn);
    case _ =>
  }

  lemma OthersKeepHeld(s: State, a: Action, call: nat)
    requires SafeState(s) && Enabled(s, a) && a.call != call
    ensures HeldBy(Apply(s, a).pool, call) == HeldBy(s.pool, call) && PhaseOf(Apply(s, a), call) == PhaseOf(s, call)
  {
    if a.Store? {
      assert HeldBy(s.pool, a.call) == Local(PhaseOf(s, a.call)) && Own(s.pool, PhaseOf(s, a.call));
      OfferKeeps(s.pool, a.call, PhaseOf(s, a.call).tenant, PhaseOf(s, a.call).conn, a.victim, a.now);
    }
  }

  lemma StepKeepsHeld(s: State, a: Action, call: nat)
    requires SafeState(s) && Enabled(s, a)
    ensures HeldBy(Apply(s, a).pool, call) == Local(PhaseOf(Apply(s, a), call))
  {
    assert HeldBy(s.pool, call) == Local(PhaseOf(s, call));
    if a.call != call {
      OthersKeepHeld(s, a, call);
    } else if a.Store? {
      assert Own(s.pool, PhaseOf(s, a.call));
      OfferKeeps(s.pool, a.call, PhaseOf(s, a.call).tenant, PhaseOf(s, a.call).conn, a.victim, a.now);
    }
  }

  lemma StepKeepsOwn(s: State, a: Action, call: nat)
    requires SafeState(s) && Enabled(s, a)
    ensures Own(Apply(s, a).pool, PhaseOf(Apply(s, a), call))
  {
    assert Own(s.pool, PhaseOf(s, call));
    if a.call != call {
      OthersKeepHeld(s, a, call);
    } else if a.Get? {
      assert a.id in s.pool.cache ==> IsFor(s.pool, s.pool.cache[a.id], a.id);
    } else if a.Snapshot? || a.Store? {
      var t := PhaseOf(s, a.call).tenant;
      assert t in s.pool.cache ==> IsFor(s.pool, s.pool.cache[t], t);
    }
  }

  lemma StepKeepsStale(s: State, a: Action, call: nat)
    requires SafeState(s) && Enabled(s, a) && PhaseOf(Apply(s, a), call).Stale?
    ensures PhaseOf(Apply(s, a), call).conn in Apply(s, a).pool.shut
  {
    assert PhaseOf(s, call).Stale? ==> PhaseOf(s, call).conn in s.pool.shut;
  }

  /** Every reachable state: no connection leaks, every cached or returned connection was dialed for the
      tenant it is cached or returned for, and the two maps have the same keys. */
  lemma {:induction false} NoConnectionLeaks(states: seq<State>, actions: seq<Action>, n: nat)
    requires IsRun(states, actions) && n < |states|
    ensures SafeState(states[n])
  {
    if n > 0 {
      NoConnectionLeaks(states, actions, n - 1);
      StepKeepsPool(states[n - 1], actions[n - 1]);
      forall call: nat ensures HeldBy(states[n].pool, call) == Local(PhaseOf(states[n], call)) {
        StepKeepsHeld(states[n - 1], actions[n - 1], call);
      }
      forall call: nat ensures Own(states[n].pool, PhaseOf(states[n], call)) {
        StepKeepsOwn(states[n - 1], actions[n - 1], call);
      }
      forall call: nat | PhaseOf(states[n], call).Stale? ensures PhaseOf(states[n], call).conn in states[n].pool.shut {
        StepKeepsStale(states[n - 1], actions[n - 1], call);
      }
    }
  }

  // ---------- what is held is given up ----------

  /** A call that holds a connection has a step it can take, and its only steps are to offer the
      connection to the pool and to disconnect one. */
  lemma HolderMustGiveUp(s: State, call: nat, c: nat, now: int)
    requires SafeState(s) && c in HeldBy(s.pool, call)
    ensures Enabled(s, Store(call, None, now)) || Enabled(s, Disconnect(call, c))
    ensures forall a :: Enabled(s, a) && a.call == call ==> a.Store? || a.Disconnect?
  {
    assert c in Local(PhaseOf(s, call));
  }

  /** Whatever step any call takes, a held connection stays with its holder or is settled, and a step
      of the holder leaves it fewer connections. */
  lemma HeldStaysOrSettles(s: State, a: Action, call: nat, c: nat)
    requires SafeState(s) && Enabled(s, a) && c in HeldBy(s.pool, call)
    ensures Settled(Apply(s, a).pool, c) || c in HeldBy(Apply(s, a).pool, call)
    ensures if a.call == call then HeldBy(Apply(s, a).pool, call) < HeldBy(s.pool, call)
            else HeldBy(Apply(s, a).pool, call) == HeldBy(s.pool, call)
  {
    HolderMustGiveUp(s, call, c, 0);
    assert HeldBy(s.pool, call) == Local(PhaseOf(s, call));
    StepKeepsHeld(s, a, call);
    if a.Store? && a.call == call {
      StoreSettles(s, a);
    }
  }

  lemma StoreSettles(s: State, a: Action)
    requires SafeState(s) && Enabled(s, a) && a.Store?
    ensures Settled(Apply(s, a).pool, PhaseOf(s, a.call).conn)
  {
    var phase := PhaseOf(s, a.call);
    assert phase.conn in Apply(s, a).pool.shut || At(Apply(s, a).pool, phase.conn, InCache(phase.tenant));
  }

  /** The steps of the call among actions m to n. */
  function OwnSteps(actions: seq<Action>, m: nat, n: nat, call: nat): nat
    requires m <= n <= |actions|
  {
    if m == n then 0 else OwnSteps(actions, m, n - 1, call) + if actions[n - 1].call == call then 1 else 0
  }

  lemma Smaller(a: set<nat>, b: set<nat>)
    requires a < b
    ensures |a| < |b|
  {
    assert b == a + (b - a);
    assert b - a != {};
  }

  lemma HolderStep(s: State, a: Action, call: nat, c: nat)
    requires SafeState(s) && Enabled(s, a) && c in HeldBy(s.pool, call)
    ensures Settled(Apply(s, a).pool, c) ||
            (c in HeldBy(Apply(s, a).pool, call)
             && |HeldBy(Apply(s, a).pool, call)| + (if a.call == call then 1 else 0) <= |HeldBy(s.pool, call)|)
  {
    HeldStaysOrSettles(s, a, call, c);
    if a.call == call {
      Smaller(HeldBy(Apply(s, a).pool, call), HeldBy(s.pool, call));
    }
  }

  /** What a call holds before action i and after it, as far as connection c goes. */
  ghost predicate Dwindles(held: set<nat>, next: set<nat>, settled: bool, own: bool, c: nat) {
    c in held ==> settled || (c in next && |next| + (if own then 1 else 0) <= |held|)
  }

  /** Some place up to n in which the connection is settled, or m if its holder still holds it. */
  lemma {:induction false} HolderProgress(held: seq<set<nat>>, settled: seq<bool>, actions: seq<Action>, m: nat, n: nat,
                                          call: nat, c: nat) returns (k: nat)
    requires |held| == |settled| == |actions| + 1 && m <= n < |held| && c in held[m]
    requires forall i :: 0 <= i < |actions| ==>
      Dwindles(held[i], held[i + 1], settled[i + 1], actions[i].call == call, c)
    ensures m <= k <= n && (k > m ==> settled[k])
    ensures k == m ==> c in held[n] && |held[n]| + OwnSteps(actions, m, n, call) <= |held[m]|
  {
    k := m;
    if m < n {
      k := HolderProgress(held, settled, actions, m, n - 1, call, c);
      assert Dwindles(held[n - 1], held[n - 1 + 1], settled[n - 1 + 1], actions[n - 1].call == call, c);
      if k == m && settled[n] {
        k := n;
      }
    }
  }

  /** In every run, a call that holds connections has closed or cached each of them after as many steps
      of its own as it holds connections. */
  lemma HeldForFewSteps(states: seq<State>, actions: seq<Action>, m: nat, n: nat, call: nat, c: nat)
    requires IsRun(states, actions) && m <= n < |states| && c in HeldBy(states[m].pool, call)
    requires OwnSteps(actions, m, n, call) >= |HeldBy(states[m].pool, call)|
    ensures exists k :: m < k <= n && Settled(states[k].pool, c)
  {
    var held := seq(|states|, i requires 0 <= i < |states| => HeldBy(states[i].pool, call));
    var settled := seq(|states|, i requires 0 <= i < |states| => Settled(states[i].pool, c));
    forall i | 0 <= i < |actions|
      ensures Dwindles(held[i], held[i + 1], settled[i + 1], actions[i].call == call, c)
    {
      NoConnectionLeaks(states, actions, i);
      if c in held[i] {
        HolderStep(states[i], actions[i], call, c);
      }
    }
    var k := HolderProgress(held, settled, actions, m, n, call, c);
    assert k > m && Settled(states[k].pool, c);
  }

  lemma {:induction false} ClosedForGood(states: seq<State>, actions: seq<Action>, m: nat, n: nat)
    requires IsRun(states, actions) && m <= n < |states| && states[m].pool.closed
    ensures states[n].pool.closed
  {
    if m < n {
      ClosedForGood(states, actions, m, n - 1);
    }
  }

  /** After Close the cache stays empty, and once no call holds a connection everything ever opened is shut. */
  lemma CloseShutsEverything(states: seq<State>, actions: seq<Action>, m: nat, n: nat)
    requires IsRun(states, actions) && m < n < |states| && actions[m].CloseManager?
    ensures states[n].pool.cache == map[] && states[n].pool.accessed == map[]
    ensures (forall call :: Local(PhaseOf(states[n], call)) == {}) ==>
              forall c: nat :: c < states[n].pool.Made() ==> c in states[n].pool.shut
  {
    ClosedForGood(states, actions, m + 1, n);
    NoConnectionLeaks(states, actions, n);
    if forall call :: Local(PhaseOf(states[n], call)) == {} {
      NothingLeftOpen(states[n].pool);
    }
  }

  // ---------- what calls return ----------

  /** A call returns an error only if the manager is closed or it could not connect.  A connection it
      returns was cached for its tenant then, whose access time is set, with one exception: on the fast
      path the entry is there but may have been replaced since the ping. */
  lemma ReturnsCached(s: State, a: Action, t: string, result: Option<nat>)
    requires SafeState(s) && Enabled(s, a) && PhaseOf(Apply(s, a), a.call) == Returned(t, result)
    ensures result.None? ==> s.pool.closed || a.ConnectFails?
    ensures result.Some? ==> a.PingSucceeds? || a.ReuseSucceeds? || a.Store?
    ensures result.Some? ==> t in Apply(s, a).pool.cache && Apply(s, a).pool.accessed[t] == a.now
    ensures result.Some? && !a.PingSucceeds? ==> At(Apply(s, a).pool, result.value, InCache(t))
    ensures result.Some? && a.PingSucceeds? ==>
              (At(Apply(s, a).pool, result.value, InCache(t)) <==> s.pool.cache[t] == PhaseOf(s, a.call).conn)
  {
  }

  /** Every connection that is returned was dialed for the tenant that asked. */
  lemma TenantsAreIsolated(states: seq<State>, actions: seq<Action>, n: nat, call: nat, t: string, c: nat)
    requires IsRun(states, actions) && n < |states|
    ensures PhaseOf(states[n], call) == Returned(t, Some(c)) ==> IsFor(states[n].pool, c, t)
    ensures t in states[n].pool.cache ==> IsFor(states[n].pool, states[n].pool.cache[t], t)
  {
    NoConnectionLeaks(states, actions, n);
    assert Own(states[n].pool, PhaseOf(states[n], call));
  }

  /** Caching a connection evicts at most the victim, whose connection is closed, and touches nobody else. */
  lemma StoreEffect(s: State, a: Action)
    requires SafeState(s) && Enabled(s, a) && a.Store? && !s.pool.closed
    requires PhaseOf(s, a.call).tenant !in s.pool.cache
    ensures a.victim.Some? ==> a.victim.value in s.pool.cache
    ensures var p, q, t := s.pool, Apply(s, a).pool, PhaseOf(s, a.call).tenant;
            var gone := if a.victim.Some? then {a.victim.value} else {};
            && q.cache == (p.cache - gone)[t := PhaseOf(s, a.call).conn]
            && q.accessed == (p.accessed - gone)[t := a.now]
            && q.shut == p.shut + (if a.victim.Some? then {p.cache[a.victim.value]} else {})
  {
    assert s.pool.cache - {} == s.pool.cache && s.pool.accessed - {} == s.pool.accessed;
  }

  /** CloseConnection takes the entry of its tenant out of the cache; the call then holds exactly the
      connection it took out. */
  lemma CloseConnectionEffect(s: State, call: nat, id: string)
    requires SafeState(s) && Resting(PhaseOf(s, call))
    ensures var p, q := s.pool, Apply(s, CloseConnection(call, id)).pool;
            && q.cache == p.cache - {id} && q.accessed == p.accessed - {id} && q.closed == p.closed
            && HeldBy(q, call) == if id in p.cache then {p.cache[id]} else {}
  {
    assert HeldBy(s.pool, call) == Local(PhaseOf(s, call)) == {};
  }

  /** Close takes all entries out, and then holds their connections. */
  lemma CloseEffect(s: State, call: nat)
    requires SafeState(s) && Resting(PhaseOf(s, call))
    ensures var p, q := s.pool, Apply(s, CloseManager(call)).pool;
            && q.closed && q.cache == map[] && q.accessed == map[] && HeldBy(q, call) == p.cache.Values
  {
    assert HeldBy(s.pool, call) == Local(PhaseOf(s, call)) == {};
    assert s.pool.cache - s.pool.cache.Keys == map[] && s.pool.accessed - s.pool.cache.Keys == map[];
    assert Taken(s.pool, s.pool.cache.Keys) == s.pool.cache.Values;
  }

  // ---------- calls can succeed ----------

  /** A call that finds nothing cached can connect, cache the connection and return it. */
  lemma ConnectServes(s: State, call: nat, t: string, now: int) returns (states: seq<State>, actions: seq<Action>)
    requires SafeState(s) && Resting(PhaseOf(s, call)) && !s.pool.closed && t !in s.pool.cache
    ensures IsPath(states, actions) && states[0] == s && |actions| == 4
    ensures var last := states[|states| - 1];
            && last.pool == Put(Open(s.pool, call, t), call, t, s.pool.Made(), now)
            && last.calls == s.calls[call := Returned(t, Some(s.pool.Made()))]
  {
    var s1 := Apply(s, Get(call, t));
    var s2 := Apply(s1, Snapshot(call));
    var s3 := Apply(s2, ConnectSucceeds(call));
    var s4 := Apply(s3, Store(call, None, now));
    states := [s, s1, s2, s3, s4];
    actions := [Get(call, t), Snapshot(call), ConnectSucceeds(call), Store(call, None, now)];
    assert s4.calls == s.calls[call := Returned(t, Some(s.pool.Made()))];
  }

  /** A call can always get a connection while the manager is open. */
  lemma CallCanSucceed(run: seq<State>, done: seq<Action>, n: nat, call: nat, t: string, now: int)
    returns (states: seq<State>, actions: seq<Action>)
    requires IsRun(run, done) && n < |run| && Resting(PhaseOf(run[n], call)) && !run[n].pool.closed
    ensures IsPath(states, actions) && states[0] == run[n] && |actions| <= 4
    ensures var last := states[|states| - 1];
            t in last.pool.cache && PhaseOf(last, call) == Returned(t, Some(last.pool.cache[t]))
  {
    NoConnectionLeaks(run, done, n);
    var s := run[n];
    if t in s.pool.cache {
      var s1 := Apply(s, Get(call, t));
      states, actions := [s, s1, Apply(s1, PingSucceeds(call, now))], [Get(call, t), PingSucceeds(call, now)];
    } else {
      states, actions := ConnectServes(s, call, t, now);
    }
  }

  // ---------- the fast path can return a closed connection ----------

  lemma PathJoin(first: seq<State>, acts: seq<Action>, second: seq<State>, more: seq<Action>)
    requires IsPath(first, acts) && IsPath(second, more) && second[0] == first[|first| - 1]
    ensures IsPath(first + second[1..], acts + more)
    ensures (first + second[1..])[0] == first[0]
    ensures (first + second[1..])[|acts| + |more|] == second[|second| - 1]
  {
    var states, actions := first + second[1..], acts + more;
    forall k | 0 <= k < |actions|
      ensures Enabled(states[k], actions[k]) && states[k + 1] == Apply(states[k], actions[k])
    {
      if k < |acts| {
        assert states[k] == first[k] && states[k + 1] == first[k + 1];
      } else {
        var i := k - |acts|;
        assert states[k] == second[i] && states[k + 1] == second[i + 1];
      }
    }
  }

  /** Connection 0 is cached for the tenant, call 0 is about to ping it, and call 1 rests. */
  ghost predicate AboutToPing(s: State, t: string) {
    && s.pool.cache == map[t := 0] && !s.pool.closed && s.pool.Made() == 1
    && PhaseOf(s, 0) == Pinging(t, 0) && PhaseOf(s, 1) == Idle
  }

  lemma ReachPing(t: string) returns (states: seq<State>, actions: seq<Action>)
    ensures IsRun(states, actions) && AboutToPing(states[|states| - 1], t)
  {
    var s := State(EMPTY, map[]);
    StartIsSafe();
    states, actions := ConnectServes(s, 0, t, 0);
    var cached := states[|states| - 1];
    assert cached.pool.cache == map[t := 0];
    PathJoin(states, actions, [cached, Apply(cached, Get(0, t))], [Get(0, t)]);
    states := states + [cached, Apply(cached, Get(0, t))][1..];
    actions := actions + [Get(0, t)];
  }

  lemma StartIsSafe()
    ensures SafeState(State(EMPTY, map[]))
  {
  }

  /** The cached connection was taken out and disconnected; call 0 still waits for the lock. */
  ghost predicate ClosedMeanwhile(s: State, t: string) {
    && s.pool.cache == map[] && !s.pool.closed && 0 in s.pool.shut
    && PhaseOf(s, 0) == Pinging(t, 0) && PhaseOf(s, 1) == Idle
  }

  lemma CloseTakesOut(s: State, t: string)
    requires SafeState(s) && AboutToPing(s, t)
    ensures var s' := Apply(s, CloseConnection(1, t));
            && s'.pool.cache == map[] && !s'.pool.closed
            && PhaseOf(s', 0) == Pinging(t, 0) && PhaseOf(s', 1) == Closing({0}, None)
  {
    assert Taken(s.pool, {t}) == {0};
  }

  lemma DisconnectTaken(s: State, t: string) returns (states: seq<State>, actions: seq<Action>)
    requires s.pool.cache == map[] && !s.pool.closed && PhaseOf(s, 0) == Pinging(t, 0)
    requires PhaseOf(s, 1) == Closing({0}, None)
    ensures IsPath(states, actions) && states[0] == s && ClosedMeanwhile(states[|states| - 1], t)
  {
    var s1 := Apply(s, Disconnect(1, 0));
    states, actions := [s, s1, Apply(s1, Done(1))], [Disconnect(1, 0), Done(1)];
  }

  lemma CloseMeanwhile(s: State, t: string) returns (states: seq<State>, actions: seq<Action>)
    requires SafeState(s) && AboutToPing(s, t)
    ensures IsPath(states, actions) && states[0] == s && ClosedMeanwhile(states[|states| - 1], t)
  {
    var close := CloseConnection(1, t);
    CloseTakesOut(s, t);
    var rest, more := DisconnectTaken(Apply(s, close), t);
    PathJoin([s, Apply(s, close)], [close], rest, more);
    states, actions := [s, Apply(s, close)] + rest[1..], [close] + more;
  }

  lemma ReconnectThenReturn(s: State, t: string) returns (states: seq<State>, actions: seq<Action>)
    requires SafeState(s) && ClosedMeanwhile(s, t)
    ensures IsPath(states, actions) && states[0] == s
    ensures PhaseOf(states[|states| - 1], 0) == Returned(t, Some(0)) && 0 in states[|states| - 1].pool.shut
  {
    states, actions := ConnectServes(s, 1, t, 0);
    var last := states[|states| - 1];
    var ping := PingSucceeds(0, 0);
    PathJoin(states, actions, [last, Apply(last, ping)], [ping]);
    states := states + [last, Apply(last, ping)][1..];
    actions := actions + [ping];
  }

  /** The fast path checks that the tenant still has an entry, not that it is the one it pinged: in some
      run a call returns a connection that was disconnected before. */
  lemma FastPathReturnsClosed(t: string) returns (states: seq<State>, actions: seq<Action>)
    ensures IsRun(states, actions)
    ensures PhaseOf(states[|states| - 1], 0) == Returned(t, Some(0)) && 0 in states[|states| - 1].pool.shut
  {
    states, actions := ReachPing(t);
    NoConnectionLeaks(states, actions, |states| - 1);
    var second, more := CloseMeanwhile(states[|states| - 1], t);
    PathJoin(states, actions, second, more);
    states, actions := states + second[1..], actions + more;
    NoConnectionLeaks(states, actions, |states| - 1);
    var third, rest := ReconnectThenReturn(states[|states| - 1], t);
    PathJoin(states, actions, third, rest);
    states, actions := states + third[1..], actions + rest;
  }
}
