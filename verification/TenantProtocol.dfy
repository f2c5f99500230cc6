/** Concurrent starts, syncs, evictions and Close over the tenant registry, and what the absence
    counters mean. */
module TenantProtocol {
  import opened TenantRegistry

  /** Where a caller of ensureConsumerStarted is. */
  datatype Phase =
    | Idle
    | Missed(tenant: string)   // the fast path found no consumer
    | Holding(tenant: string)  // holds the tenant's mutex
    | Ready(tenant: string)    // the second check found no consumer either
    | Finished(tenant: string) // about to release the mutex

  /** owner: which caller holds each tenant's mutex. */
  datatype State = State(registry: Registry, callers: map<nat, Phase>, owner: map<string, nat>)

  datatype Action =
    | Check(caller: nat, id: string) | Lock(caller: nat) | Recheck(caller: nat)
    | Begin(caller: nat) | Unlock(caller: nat)
    | Discovered(ids: set<string>) | Synced(ids: set<string>) | Evicted(id: string) | Closed

  function At(s: State, caller: nat): Phase { if caller in s.callers then s.callers[caller] else Idle }

  predicate Enabled(s: State, a: Action) {
    match a
    case Check(c, _) => At(s, c).Idle?
    case Lock(c) => At(s, c).Missed? && At(s, c).tenant !in s.owner
    case Recheck(c) => At(s, c).Holding?
    case Begin(c) => At(s, c).Ready?
    case Unlock(c) => At(s, c).Finished?
    case _ => true
  }

  predicate Running(r: Registry, id: string) { id in r.tenants || r.closed }

  ghost function Apply(s: State, a: Action): State
    requires Enabled(s, a)
  {
    match a
    case Check(c, id) => s.(callers := s.callers[c := if Running(s.registry, id) then Idle else Missed(id)])
    case Lock(c) =>
      var id := At(s, c).tenant;
      s.(callers := s.callers[c := Holding(id)], owner := s.owner[id := c])
    case Recheck(c) =>
      var id := At(s, c).tenant;
      s.(callers := s.callers[c := if Running(s.registry, id) then Finished(id) else Ready(id)])
    case Begin(c) =>
      var id := At(s, c).tenant;
      s.(callers := s.callers[c := Finished(id)], registry := Start(s.registry, id))
    case Unlock(c) => s.(callers := s.callers[c := Idle], owner := s.owner - {At(s, c).tenant})
    case Discovered(ids) => s.(registry := Discover(s.registry, ids))
    case Synced(ids) => s.(registry := Sync(s.registry, ids))
    case Evicted(id) => s.(registry := Evict(s.registry, id))
    case Closed => s.(registry := Close(s.registry))
  }

  ghost predicate IsPath(states: seq<State>, actions: seq<Action>) {
    && |states| == |actions| + 1
    && forall k :: 0 <= k < |actions| ==>
         Enabled(states[k], actions[k]) && states[k + 1] == Apply(states[k], actions[k])
  }

  ghost predicate IsRun(states: seq<State>, actions: seq<Action>) {
    IsPath(states, actions) && states[0] == State(EMPTY, map[], map[])
  }

  // ---------- contexts and consumers ----------

  /** Each running consumer has a live context of its own, and each live context a running consumer. */
  ghost predicate OneToOne(r: Registry) {
    && Valid(r)
    && (forall id :: id in r.tenants ==> r.contexts[r.tenants[id]] == Context(id, true))
    && (forall i :: 0 <= i < |r.contexts| && r.contexts[i].live ==>
          r.contexts[i].tenant in r.tenants && r.tenants[r.contexts[i].tenant] == i)
  }

  predicate Holds(p: Phase) { p.Holding? || p.Ready? || p.Finished? }

  /** A caller past the mutex owns it, and no one starts the tenant behind its back. */
  ghost predicate CallersInv(s: State) {
    forall c :: c in s.callers && Holds(s.callers[c]) ==>
      && s.callers[c].tenant in s.owner && s.owner[s.callers[c].tenant] == c
      && (s.callers[c].Ready? ==> s.callers[c].tenant !in s.registry.tenants)
  }

  ghost predicate Inv(s: State) { OneToOne(s.registry) && CallersInv(s) }

  lemma StopKeepsOneToOne(r: Registry, ids: set<string>)
    requires OneToOne(r)
    ensures OneToOne(Stop(r, ids))
  {
    var s := Stop(r, ids);
    forall id | id in s.tenants ensures s.contexts[s.tenants[id]] == Context(id, true) {
      assert id in r.tenants;
    }
    forall i | 0 <= i < |s.contexts| && s.contexts[i].live
      ensures s.contexts[i].tenant in s.tenants && s.tenants[s.contexts[i].tenant] == i
    {
      assert r.contexts[i].live;
    }
  }

  lemma CloseKeepsOneToOne(r: Registry)
    requires OneToOne(r)
    ensures OneToOne(Close(r))
    ensures forall i :: 0 <= i < |r.contexts| ==> !Close(r).contexts[i].live
  {
    StopKeepsOneToOne(r, r.tenants.Keys);
    assert Stop(r, r.tenants.Keys).tenants == map[];
  }

  /** A start adds one context and overwrites no cancel function. */
  lemma StartKeepsOneToOne(r: Registry, id: string)
    requires OneToOne(r) && id !in r.tenants
    ensures OneToOne(Start(r, id))
  {
  }

  lemma RegistryStepKeepsOneToOne(s: State, a: Action)
    requires Inv(s) && Enabled(s, a)
    ensures OneToOne(Apply(s, a).registry)
  {
    match a
    case Begin(c) => StartKeepsOneToOne(s.registry, At(s, c).tenant);
    case Synced(ids) => StopKeepsOneToOne(Reconcile(s.registry, ids), Dropped(s.registry, ids));
    case Evicted(id) => StopKeepsOneToOne(s.registry, {id});
    case Closed => CloseKeepsOneToOne(s.registry);
    case _ =>
  }

  lemma StepKeepsCallers(s: State, a: Action)
    requires Inv(s) && Enabled(s, a)
    ensures CallersInv(Apply(s, a))
  {
  }

  lemma {:induction false} RunKeepsInv(states: seq<State>, actions: seq<Action>, n: nat)
    requires IsRun(states, actions) && n < |states|
    ensures Inv(states[n])
  {
    if n > 0 {
      RunKeepsInv(states, actions, n - 1);
      RegistryStepKeepsOneToOne(states[n - 1], actions[n - 1]);
      StepKeepsCallers(states[n - 1], actions[n - 1]);
    }
  }

  /** In every interleaving a start finds no consumer to overwrite: the contexts that are live
      before it are live after it, with the same tenants. */
  lemma StartOverwritesNothing(states: seq<State>, actions: seq<Action>, n: nat)
    requires IsRun(states, actions) && n < |actions| && actions[n].Begin?
    ensures At(states[n], actions[n].caller).tenant !in states[n].registry.tenants
    ensures states[n].registry.contexts <= states[n + 1].registry.contexts
  {
    RunKeepsInv(states, actions, n);
  }

  /** A tenant that a sync drops has no running consumer and no live context afterwards. */
  lemma DroppedTenantIsStopped(states: seq<State>, actions: seq<Action>, n: nat, id: string)
    requires IsRun(states, actions) && n < |actions| && actions[n].Synced?
    requires id in states[n].registry.known && id !in states[n + 1].registry.known
    ensures id !in states[n + 1].registry.tenants
    ensures Context(id, true) !in states[n + 1].registry.contexts
  {
    RunKeepsInv(states, actions, n + 1);
  }

  // ---------- Close ----------

  /** Closed, and no caller is past its second check. */
  ghost predicate Quiet(s: State) {
    s.registry.closed && forall c :: c in s.callers ==> !s.callers[c].Ready?
  }

  lemma StepKeepsQuiet(s: State, a: Action)
    requires Quiet(s) && Enabled(s, a)
    ensures Quiet(Apply(s, a)) && Apply(s, a).registry.tenants.Keys <= s.registry.tenants.Keys
  {
  }

  /** Once closed with no caller past its second check, no consumer is ever started again. */
  lemma {:induction false} NothingStartsOnceQuiet(states: seq<State>, actions: seq<Action>, m: nat, n: nat)
    requires IsPath(states, actions) && m <= n < |states| && Quiet(states[m])
    ensures Quiet(states[n]) && states[n].registry.tenants.Keys <= states[m].registry.tenants.Keys
  {
    if m < n {
      NothingStartsOnceQuiet(states, actions, m, n - 1);
      StepKeepsQuiet(states[n - 1], actions[n - 1]);
    }
  }

  /** A continuation in which some consumer is started. */
  ghost predicate Starts(s: State, states: seq<State>, actions: seq<Action>) {
    IsPath(states, actions) && states[0] == s && exists k :: 0 <= k < |actions| && actions[k].Begin?
  }

  lemma QuietNeverStarts(s: State, states: seq<State>, actions: seq<Action>)
    requires Quiet(s) && IsPath(states, actions) && states[0] == s
    ensures forall k :: 0 <= k < |actions| ==> !actions[k].Begin?
  {
    forall k | 0 <= k < |actions| ensures !actions[k].Begin? {
      NothingStartsOnceQuiet(states, actions, 0, k);
    }
  }

  /** Close stops all starts but those already past their second check, exactly: from a closed state
      some continuation starts a consumer if and only if a caller is past its second check. */
  lemma StartsAfterCloseIff(s: State)
    requires s.registry.closed
    ensures (exists states, actions :: Starts(s, states, actions)) <==>
            (exists c :: c in s.callers && s.callers[c].Ready?)
  {
    if c :| c in s.callers && s.callers[c].Ready? {
      var states, actions := [s, Apply(s, Begin(c))], [Begin(c)];
      assert actions[0].Begin? && Starts(s, states, actions);
    } else {
      forall states, actions | IsPath(states, actions) && states[0] == s ensures !Starts(s, states, actions) {
        QuietNeverStarts(s, states, actions);
      }
    }
  }

  /** Such a state is reachable, for every tenant: the consumer then runs although the registry is closed. */
  lemma ConsumerAfterClose(id: string) returns (states: seq<State>, actions: seq<Action>)
    ensures IsRun(states, actions)
    ensures var last := states[|states| - 1].registry;
            last.closed && id in last.tenants && Context(id, true) in last.contexts
  {
    var s0 := State(EMPTY, map[], map[]);
    var s1 := Apply(s0, Check(0, id));
    var s2 := Apply(s1, Lock(0));
    var s3 := Apply(s2, Recheck(0));
    var s4 := Apply(s3, Closed);
    var s5 := Apply(s4, Begin(0));
    states, actions := [s0, s1, s2, s3, s4, s5], [Check(0, id), Lock(0), Recheck(0), Closed, Begin(0)];
    assert s5.registry.contexts[|s4.registry.contexts|] == Context(id, true);
  }

  // ---------- the absence counters ----------

  /** One discovery, then successful fetches and evictions. */
  datatype Event = Fetch(ids: set<string>) | Eviction(id: string)

  ghost function After(h: seq<Event>): Registry {
    if h == [] then EMPTY
    else
      var r, last := After(h[..|h| - 1]), h[|h| - 1];
      match last
      case Fetch(ids) => if |h| == 1 then Discover(r, ids) else Sync(r, ids)
      case Eviction(id) => Evict(r, id)
  }

  function Fetches(h: seq<Event>): nat {
    if h == [] then 0 else Fetches(h[..|h| - 1]) + if h[|h| - 1].Fetch? then 1 else 0
  }

  /** The tenant appeared in one of the last n fetches and was not evicted since. */
  ghost predicate SeenWithin(h: seq<Event>, id: string, n: int) {
    exists k :: SeenAt(h, id, k) && Fetches(h[k + 1..]) < n
  }

  ghost predicate SeenAt(h: seq<Event>, id: string, k: int) {
    0 <= k < |h| && h[k].Fetch? && id in h[k].ids && forall j :: k < j < |h| ==> h[j] != Eviction(id)
  }

  lemma SeenAfter(h: seq<Event>, e: Event, id: string, n: int)
    ensures SeenWithin(h + [e], id, n) <==>
              match e
              case Fetch(ids) => (n > 0 && id in ids) || SeenWithin(h, id, n - 1)
              case Eviction(x) => x != id && SeenWithin(h, id, n)
  {
    var g := h + [e];
    var m := if e.Fetch? then n - 1 else n;
    forall k | SeenAt(h, id, k) && Fetches(h[k + 1..]) < m && e != Eviction(id) ensures SeenWithin(g, id, n) {
      FetchesAfter(h, e, k);
      assert SeenAt(g, id, k);
    }
    forall k | SeenAt(g, id, k) && Fetches(g[k + 1..]) < n && k < |h|
      ensures SeenWithin(h, id, m) && e != Eviction(id)
    {
      FetchesAfter(h, e, k);
      assert g[|h|] == e;
      assert forall j :: k < j < |h| ==> h[j] == g[j];
      assert SeenAt(h, id, k);
    }
    if e.Fetch? && id in e.ids {
      assert SeenAt(g, id, |h|) && g[|h| + 1..] == [];
    }
  }

  lemma FetchesAfter(h: seq<Event>, e: Event, k: int)
    requires 0 <= k < |h|
    ensures Fetches((h + [e])[k + 1..]) == Fetches(h[k + 1..]) + if e.Fetch? then 1 else 0
  {
    var g := (h + [e])[k + 1..];
    assert g[..|g| - 1] == h[k + 1..];
  }

  /** The counter of a known tenant is the number of fetches since it was last seen. */
  ghost predicate CountsSince(r: Registry, h: seq<Event>, id: string) {
    if id in r.known then Absences(r, id) < ABSENT_SYNCS && forall n :: SeenWithin(h, id, n) <==> Absences(r, id) < n
    else !SeenWithin(h, id, ABSENT_SYNCS)
  }

  lemma SeenWiden(h: seq<Event>, id: string, m: int, n: int)
    requires SeenWithin(h, id, m) && m <= n
    ensures SeenWithin(h, id, n)
  {
    var k :| SeenAt(h, id, k) && Fetches(h[k + 1..]) < m;
    assert SeenAt(h, id, k) && Fetches(h[k + 1..]) < n;
  }

  lemma FetchCounts(r: Registry, g: seq<Event>, ids: set<string>, id: string)
    requires CountsSince(r, g, id) && !r.closed
    ensures CountsSince(Sync(r, ids), g + [Fetch(ids)], id)
  {
    var next := Sync(r, ids);
    forall n: int | id in next.known ensures SeenWithin(g + [Fetch(ids)], id, n) <==> Absences(next, id) < n {
      SeenAfter(g, Fetch(ids), id, n);
    }
    SeenAfter(g, Fetch(ids), id, ABSENT_SYNCS);
    if SeenWithin(g, id, ABSENT_SYNCS - 1) {
      SeenWiden(g, id, ABSENT_SYNCS - 1, ABSENT_SYNCS);
    }
  }

  lemma EvictionCounts(r: Registry, g: seq<Event>, x: string, id: string)
    requires CountsSince(r, g, id)
    ensures CountsSince(Evict(r, x), g + [Eviction(x)], id)
  {
    forall n: int ensures SeenWithin(g + [Eviction(x)], id, n) <==> x != id && SeenWithin(g, id, n) {
      SeenAfter(g, Eviction(x), id, n);
    }
  }

  lemma {:induction false} CountersCount(h: seq<Event>, id: string)
    requires h == [] || h[0].Fetch?
    ensures !After(h).closed && CountsSince(After(h), h, id)
  {
    if |h| == 1 {
      forall n: int ensures SeenWithin(h, id, n) <==> n > 0 && id in h[0].ids {
        SeenAfter([], h[0], id, n);
        assert [] + [h[0]] == h;
      }
    } else if h != [] {
      var g, e := h[..|h| - 1], h[|h| - 1];
      assert h == g + [e];
      CountersCount(g, id);
      match e
      case Fetch(ids) => FetchCounts(After(g), g, ids, id);
      case Eviction(x) => EvictionCounts(After(g), g, x, id);
    }
  }

  /** The absence counters are a sliding window: a tenant is known exactly if it appeared in one of
      the last three fetches, the discovery included, and was not evicted since. */
  lemma KnownIsSlidingWindow(h: seq<Event>, id: string)
    requires h == [] || h[0].Fetch?
    ensures id in After(h).known <==> SeenWithin(h, id, 3)
  {
    CountersCount(h, id);
  }
}
