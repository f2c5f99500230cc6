/** What each operation on the tenant registry does to the consumers, in any interleaving, and that a
    consumer can always be started. */
module TenantOutcomes {
  import opened Sequences
  import opened TenantRegistry
  import opened TenantProtocol

  predicate Runs(r: Registry, id: string) { id in r.tenants && Context(id, true) in r.contexts }

  /** The same contexts, and exactly those of the tenants that are gone were cancelled. */
  ghost predicate CancelsOnly(r: Registry, s: Registry, gone: set<string>) {
    && s.tenants == r.tenants - gone && |s.contexts| == |r.contexts|
    && forall i :: 0 <= i < |r.contexts| ==>
         s.contexts[i] == Context(r.contexts[i].tenant, r.contexts[i].live && r.contexts[i].tenant !in gone)
  }

  lemma StopCancelsOnly(r: Registry, ids: set<string>)
    requires OneToOne(r)
    ensures CancelsOnly(r, Stop(r, ids), ids)
  {
    var s := Stop(r, ids);
    forall i | 0 <= i < |r.contexts|
      ensures s.contexts[i] == Context(r.contexts[i].tenant, r.contexts[i].live && r.contexts[i].tenant !in ids)
    {
      if id :| id in ids && id in r.tenants && r.tenants[id] == i {
        assert r.contexts[i] == Context(id, true);
      }
    }
  }

  /** An evicted tenant is unknown, has no running consumer and no live context; nobody else is stopped. */
  lemma EvictedTenantIsStopped(states: seq<State>, actions: seq<Action>, n: nat, id: string)
    requires IsRun(states, actions) && n < |actions| && actions[n] == Evicted(id)
    ensures var r, s := states[n].registry, states[n + 1].registry;
            && id !in s.known && id !in s.tenants && Context(id, true) !in s.contexts
            && s.known == r.known - {id} && CancelsOnly(r, s, {id}) && s.closed == r.closed
  {
    RunKeepsInv(states, actions, n);
    RunKeepsInv(states, actions, n + 1);
    StopCancelsOnly(states[n].registry, {id});
  }

  /** A sync stops exactly the tenants it forgets: a consumer still runs if and only if it ran before and
      its tenant is no less known than it was. */
  lemma SyncStopsExactly(states: seq<State>, actions: seq<Action>, n: nat, ids: set<string>)
    requires IsRun(states, actions) && n < |actions| && actions[n] == Synced(ids) && !states[n].registry.closed
    ensures var r, s := states[n].registry, states[n + 1].registry;
            && CancelsOnly(r, s, r.known - s.known) && ids <= s.known <= r.known + ids && !s.closed
  {
    RunKeepsInv(states, actions, n);
    var r, s := states[n].registry, states[n + 1].registry;
    StopCancelsOnly(Reconcile(r, ids), Dropped(r, ids));
    assert r.known - s.known == Dropped(r, ids);
  }

  /** A closed registry does not sync. */
  lemma ClosedDoesNotSync(states: seq<State>, actions: seq<Action>, n: nat)
    requires IsRun(states, actions) && n < |actions| && actions[n].Synced? && states[n].registry.closed
    ensures states[n + 1].registry == states[n].registry
  {
  }

  /** Closing stops every consumer and forgets every tenant. */
  lemma CloseStopsAll(states: seq<State>, actions: seq<Action>, n: nat)
    requires IsRun(states, actions) && n < |actions| && actions[n] == Closed
    ensures var r, s := states[n].registry, states[n + 1].registry;
            && s.closed && s.known == {} && s.absences == map[] && CancelsOnly(r, s, r.tenants.Keys)
            && forall c :: c in s.contexts ==> !c.live
  {
    RunKeepsInv(states, actions, n);
    var r := states[n].registry;
    StopCancelsOnly(r, r.tenants.Keys);
    CloseKeepsOneToOne(r);
    assert r.tenants - r.tenants.Keys == map[];
  }

  /** A start makes the tenant run and touches nobody else. */
  lemma StartedTenantRuns(states: seq<State>, actions: seq<Action>, n: nat)
    requires IsRun(states, actions) && n < |actions| && actions[n].Begin?
    ensures var r, s, id := states[n].registry, states[n + 1].registry, At(states[n], actions[n].caller).tenant;
            && Runs(s, id) && id !in r.tenants
            && s.tenants == r.tenants[id := |r.contexts|] && s.contexts == r.contexts + [Context(id, true)]
            && s.known == r.known && s.closed == r.closed
  {
    RunKeepsInv(states, actions, n);
    var s := states[n + 1].registry;
    assert s.contexts[|s.contexts| - 1] in s.contexts;
  }

  // ---------- a consumer can always be started ----------

  /** Whoever holds the mutex of a tenant is on its way to release it. */
  ghost predicate OwnersInv(s: State) {
    forall id :: id in s.owner ==>
      s.owner[id] in s.callers && Holds(s.callers[s.owner[id]]) && s.callers[s.owner[id]].tenant == id
  }

  lemma StepKeepsOwners(s: State, a: Action)
    requires Inv(s) && OwnersInv(s) && Enabled(s, a)
    ensures OwnersInv(Apply(s, a))
  {
  }

  lemma {:induction false} RunKeepsOwners(states: seq<State>, actions: seq<Action>, n: nat)
    requires IsRun(states, actions) && n < |states|
    ensures OwnersInv(states[n])
  {
    if n > 0 {
      RunKeepsOwners(states, actions, n - 1);
      RunKeepsInv(states, actions, n - 1);
      StepKeepsOwners(states[n - 1], actions[n - 1]);
    }
  }

  ghost predicate LeadsTo(s: State, id: string, states: seq<State>, actions: seq<Action>) {
    IsPath(states, actions) && states[0] == s && Runs(states[|states| - 1].registry, id)
  }

  lemma LeadsOn(s: State, a: Action, id: string, states: seq<State>, actions: seq<Action>)
    requires Enabled(s, a) && LeadsTo(Apply(s, a), id, states, actions)
    ensures LeadsTo(s, id, [s] + states, [a] + actions)
  {
    var longer, more := [s] + states, [a] + actions;
    forall k | 0 <= k < |more| ensures Enabled(longer[k], more[k]) && longer[k + 1] == Apply(longer[k], more[k]) {
      if k > 0 {
        assert longer[k] == states[k - 1] && more[k] == actions[k - 1] && longer[k + 1] == states[k - 1 + 1];
      }
    }
    assert longer[|longer| - 1] == states[|states| - 1];
  }

  lemma ReadyStarts(s: State, c: nat, id: string) returns (states: seq<State>, actions: seq<Action>)
    requires At(s, c) == Ready(id)
    ensures LeadsTo(s, id, states, actions) && |actions| == 1
  {
    var a := Begin(c);
    states, actions := [s, Apply(s, a)], [a];
    var r := Apply(s, a).registry;
    assert r.contexts[|r.contexts| - 1] in r.contexts;
  }

  lemma HoldingStarts(s: State, c: nat, id: string) returns (states: seq<State>, actions: seq<Action>)
    requires At(s, c) == Holding(id) && !Running(s.registry, id)
    ensures LeadsTo(s, id, states, actions) && |actions| == 2
  {
    var rest, more := ReadyStarts(Apply(s, Recheck(c)), c, id);
    LeadsOn(s, Recheck(c), id, rest, more);
    states, actions := [s] + rest, [Recheck(c)] + more;
  }

  lemma FreeStarts(s: State, c: nat, id: string) returns (states: seq<State>, actions: seq<Action>)
    requires At(s, c) == Idle && !Running(s.registry, id) && id !in s.owner
    ensures LeadsTo(s, id, states, actions) && |actions| == 4
  {
    var s1 := Apply(s, Check(c, id));
    var rest, more := HoldingStarts(Apply(s1, Lock(c)), c, id);
    LeadsOn(s1, Lock(c), id, rest, more);
    LeadsOn(s, Check(c, id), id, [s1] + rest, [Lock(c)] + more);
    states, actions := [s] + ([s1] + rest), [Check(c, id)] + ([Lock(c)] + more);
  }

  /** While the registry is open a consumer can be started for every tenant, whoever else is at it: in at
      most five steps the tenant runs, on a live context. */
  lemma ConsumerCanStart(run: seq<State>, done: seq<Action>, n: nat, id: string)
    returns (states: seq<State>, actions: seq<Action>)
    requires IsRun(run, done) && n < |run| && !run[n].registry.closed
    ensures LeadsTo(run[n], id, states, actions) && |actions| <= 5
  {
    var s := run[n];
    RunKeepsInv(run, done, n);
    RunKeepsOwners(run, done, n);
    var c := UpperBound(s.callers.Keys);
    if id in s.registry.tenants {
      assert s.registry.contexts[s.registry.tenants[id]] in s.registry.contexts;
      states, actions := [s], [];
    } else if id !in s.owner {
      states, actions := FreeStarts(s, c, id);
    } else {
      var holder := s.owner[id];
      match s.callers[holder]
      case Holding(_) => states, actions := HoldingStarts(s, holder, id);
      case Ready(_) => states, actions := ReadyStarts(s, holder, id);
      case Finished(_) =>
        var rest, more := FreeStarts(Apply(s, Unlock(holder)), c, id);
        LeadsOn(s, Unlock(holder), id, rest, more);
        states, actions := [s] + rest, [Unlock(holder)] + more;
    }
  }
}
