/** The registry of tenants and their consumers. Every operation here runs under the registry lock. */
module TenantRegistry {
  import opened Sequences

  /** A tenant may be missing from this many fetches in a row before it is forgotten. */
  const ABSENT_SYNCS := 3

  /** The cancellable context of a started consumer; it lives until its cancel function is called. */
  datatype Context = Context(tenant: string, live: bool)

  /** tenants holds, for each running consumer, the index of its context. */
  datatype Registry = Registry(closed: bool, known: set<string>, absences: map<string, nat>,
                               tenants: map<string, nat>, contexts: seq<Context>)

  const EMPTY := Registry(false, {}, map[], map[], [])

  /** Every cancel function belongs to a context that was created. */
  ghost predicate Valid(r: Registry) {
    forall t :: t in r.tenants ==> r.tenants[t] < |r.contexts|
  }

  function Absences(r: Registry, id: string): nat { if id in r.absences then r.absences[id] else 0 }

  /** Known tenants that have now been absent too often. */
  ghost function Dropped(r: Registry, current: set<string>): set<string> {
    set id | id in r.known && id !in current && Absences(r, id) + 1 >= ABSENT_SYNCS
  }

  /** Known tenants that are absent but kept. */
  ghost function Missing(r: Registry, current: set<string>): set<string> {
    set id | id in r.known && id !in current && Absences(r, id) + 1 < ABSENT_SYNCS
  }

  /** Cancels the consumers of the given tenants, where they run, and forgets them. */
  ghost function Stop(r: Registry, ids: set<string>): Registry {
    r.(tenants := r.tenants - ids,
       contexts := seq(|r.contexts|, i requires 0 <= i < |r.contexts| =>
                         r.contexts[i].(live := r.contexts[i].live
                           && !exists id :: id in ids && id in r.tenants && r.tenants[id] == i)))
  }

  ghost function Reconcile(r: Registry, current: set<string>): Registry {
    r.(known := current + Missing(r, current),
       absences := map id | id in (r.absences.Keys + current + Missing(r, current)) - Dropped(r, current) ::
                     if id in current then 0
                     else if id in Missing(r, current) then Absences(r, id) + 1 else Absences(r, id))
  }

  ghost function Sync(r: Registry, current: set<string>): Registry {
    if r.closed then r else Stop(Reconcile(r, current), Dropped(r, current))
  }

  ghost function Discover(r: Registry, ids: set<string>): Registry { r.(known := r.known + ids) }

  ghost function Evict(r: Registry, id: string): Registry {
    var s := Stop(r, {id});
    s.(known := s.known - {id})
  }

  ghost function Close(r: Registry): Registry {
    Stop(r, r.tenants.Keys).(closed := true, known := {}, absences := map[], tenants := map[])
  }

  ghost function Start(r: Registry, id: string): Registry {
    r.(tenants := r.tenants[id := |r.contexts|], contexts := r.contexts + [Context(id, true)])
  }

  lemma StopOne(r: Registry, done: set<string>, id: string)
    requires Valid(r) && id !in done && id in r.tenants
    ensures id in Stop(r, done).tenants
    ensures var s := Stop(r, done);
            Stop(r, done + {id}) ==
            s.(tenants := s.tenants - {id},
               contexts := s.contexts[r.tenants[id] := s.contexts[r.tenants[id]].(live := false)])
  {
    var s := Stop(r, done);
    var h := r.tenants[id];
    var next := s.contexts[h := s.contexts[h].(live := false)];
    forall i | 0 <= i < |next| ensures next[i] == Stop(r, done + {id}).contexts[i] {
      assert id in done + {id};
    }
    assert next == Stop(r, done + {id}).contexts;
    assert r.tenants - done - {id} == r.tenants - (done + {id});
  }

  lemma StopIdle(r: Registry, ids: set<string>, others: set<string>)
    requires others !! r.tenants.Keys
    ensures Stop(r, ids + others) == Stop(r, ids)
  {
    assert r.tenants - (ids + others) == r.tenants - ids;
    assert Stop(r, ids + others).contexts == Stop(r, ids).contexts;
  }

  /** The counts once the tenants in done have been seen in the fetch. */
  ghost function Marked(r: Registry, done: set<string>): map<string, nat> {
    map id | id in r.absences.Keys + done :: if id in done then 0 else r.absences[id]
  }

  /** The counts once, moreover, the absence of the tenants in done has been counted. */
  ghost function Counted(r: Registry, current: set<string>, done: set<string>): map<string, nat> {
    var counted := Missing(r, current) * done;
    map id | id in (r.absences.Keys + current + counted) - Dropped(r, current) * done ::
      if id in current then 0 else if id in counted then Absences(r, id) + 1 else r.absences[id]
  }

  lemma MarkOne(r: Registry, done: set<string>, id: string)
    ensures Marked(r, done)[id := 0] == Marked(r, done + {id})
  {
  }

  lemma CountOne(r: Registry, current: set<string>, done: set<string>, id: string)
    requires id in r.known && id !in current && id !in done
    ensures var counts := Counted(r, current, done);
            var count := (if id in counts then counts[id] else 0) + 1;
            && (count < ABSENT_SYNCS <==> id in Missing(r, current))
            && (count >= ABSENT_SYNCS <==> id in Dropped(r, current))
            && Counted(r, current, done + {id}) ==
               if count < ABSENT_SYNCS then counts[id := count] else counts[id := count] - {id}
  {
  }

  lemma CountAll(r: Registry, current: set<string>, done: set<string>)
    requires done == r.known - current
    ensures Missing(r, current) * done == Missing(r, current) && Dropped(r, current) * done == Dropped(r, current)
    ensures Counted(r, current, done) == Reconcile(r, current).absences
  {
  }

  lemma Tally(kept: set<string>, removed: seq<string>, missing: set<string>,
              dropped: set<string>, done: set<string>, id: string)
    requires kept == missing * done && SetOf(removed) == dropped * done
    ensures missing * (done + {id}) == if id in missing then kept + {id} else kept
    ensures dropped * (done + {id}) == if id in dropped then SetOf(removed + [id]) else SetOf(removed)
  {
    assert SetOf(removed + [id]) == SetOf(removed) + {id};
  }

  /** The members of a set in some order, as ranging over it visits them. */
  method Enumerate(ids: set<string>) returns (order: seq<string>)
    ensures SetOf(order) == ids && Distinct(order)
  {
    order := [];
    var todo := ids;
    while todo != {}
      invariant SetOf(order) == ids - todo && todo <= ids
      invariant Distinct(order)
      decreases |todo|
    {
      var id :| id in todo;
      assert id !in SetOf(order) && SetOf(order + [id]) == SetOf(order) + {id};
      order, todo := order + [id], todo - {id};
    }
  }

  lemma EnumerateStep(order: seq<string>, i: nat)
    requires Distinct(order) && i < |order|
    ensures order[i] in SetOf(order) && order[i] !in SetOf(order[..i])
    ensures SetOf(order[..i + 1]) == SetOf(order[..i]) + {order[i]}
  {
  }

  class Consumer {
    var closed: bool
    var known: set<string>
    var absences: map<string, nat>
    var tenants: map<string, nat>
    var contexts: seq<Context>

    ghost function State(): Registry
      reads this
    {
      Registry(closed, known, absences, tenants, contexts)
    }

    constructor ()
      ensures State() == EMPTY
    {
      closed, known, absences, tenants, contexts := false, {}, map[], map[], [];
    }

    method Cancel(context: nat)
      requires context < |contexts|
      modifies this`contexts
      ensures contexts == old(contexts)[context := old(contexts)[context].(live := false)]
    {
      contexts := contexts[context := contexts[context].(live := false)];
    }

    method DiscoverTenants(fetched: seq<string>)
      modifies this`known
      ensures State() == Discover(old(State()), SetOf(fetched))
    {
      for i := 0 to |fetched|
        invariant known == old(known) + SetOf(fetched[..i])
      {
        known := known + {fetched[i]};
      }
    }

    /** Zeroes the count of every tenant in the fetch. */
    method MarkPresent(current: set<string>)
      modifies this`absences
      ensures absences == Marked(old(State()), current)
    {
      var order := Enumerate(current);
      for i := 0 to |order|
        invariant absences == Marked(old(State()), SetOf(order[..i]))
      {
        EnumerateStep(order, i);
        MarkOne(old(State()), SetOf(order[..i]), order[i]);
        absences := absences[order[i] := 0];
      }
      assert order[..|order|] == order;
    }

    /** Counts the absence of one known tenant; says whether it is kept. */
    method CountAbsence(id: string, ghost r: Registry, ghost current: set<string>, ghost done: set<string>)
      returns (kept: bool)
      requires absences == Counted(r, current, done) && id in r.known && id !in current && id !in done
      modifies this`absences
      ensures absences == Counted(r, current, done + {id})
      ensures kept <==> id in Missing(r, current)
      ensures !kept <==> id in Dropped(r, current)
    {
      CountOne(r, current, done, id);
      var count := (if id in absences then absences[id] else 0) + 1;
      absences := absences[id := count];
      kept := count < ABSENT_SYNCS;
      if !kept {
        absences := absences - {id};
      }
    }

    /** Counts the absence of every known tenant that is not in the fetch. */
    method CountAbsences(current: set<string>, ghost r: Registry) returns (kept: set<string>, removed: seq<string>)
      requires known == r.known && tenants == r.tenants && absences == Counted(r, current, {})
      modifies this`absences
      ensures absences == Counted(r, current, r.known - current)
      ensures kept == Missing(r, current)
      ensures SetOf(removed) == Dropped(r, current) * r.tenants.Keys
    {
      kept, removed := {}, [];
      var order := Enumerate(known - current);
      ghost var missing, dropped := Missing(r, current), Dropped(r, current) * r.tenants.Keys;
      for i := 0 to |order|
        invariant kept == missing * SetOf(order[..i]) && SetOf(removed) == dropped * SetOf(order[..i])
        invariant absences == Counted(r, current, SetOf(order[..i]))
      {
        EnumerateStep(order, i);
        Tally(kept, removed, missing, dropped, SetOf(order[..i]), order[i]);
        var keep := CountAbsence(order[i], r, current, SetOf(order[..i]));
        if keep {
          kept := kept + {order[i]};
        } else if order[i] in tenants {
          removed := removed + [order[i]];
        }
      }
      assert order[..|order|] == order;
      assert missing * SetOf(order) == missing && dropped * SetOf(order) == dropped;
    }

    method ReconcileTenantPresence(current: set<string>) returns (removed: seq<string>)
      modifies this`known, this`absences
      ensures State() == Reconcile(old(State()), current)
      ensures SetOf(removed) == Dropped(old(State()), current) * tenants.Keys
    {
      ghost var r := State();
      MarkPresent(current);
      assert absences == Counted(r, current, {});
      var kept, dropped := CountAbsences(current, r);
      CountAll(r, current, r.known - current);
      known, removed := current + kept, dropped;
    }

    method CancelRemovedTenantConsumers(removed: seq<string>)
      requires Valid(State())
      modifies this`tenants, this`contexts
      ensures State() == Stop(old(State()), SetOf(removed))
    {
      ghost var done: set<string> := {};
      assert State() == Stop(State(), {});
      for i := 0 to |removed|
        invariant done == SetOf(removed[..i])
        invariant State() == Stop(old(State()), done)
      {
        var id := removed[i];
        if id in tenants {
          StopOne(old(State()), done, id);
          Cancel(tenants[id]);
          tenants := tenants - {id};
        } else {
          StopIdle(State(), {}, {id});
          StopAgain(old(State()), done, id);
        }
        done := done + {id};
      }
      assert removed[..|removed|] == removed;
    }

    /** One sync after a successful fetch; current holds the valid ids of the fetch. */
    method SyncTenants(current: set<string>) returns (ok: bool)
      requires Valid(State())
      modifies this
      ensures ok == !old(closed)
      ensures State() == Sync(old(State()), current)
    {
      if closed {
        return false;
      }
      var removed := ReconcileTenantPresence(current);
      CancelRemovedTenantConsumers(removed);
      ghost var idle := Dropped(old(State()), current) - old(tenants).Keys;
      StopIdle(Reconcile(old(State()), current), SetOf(removed), idle);
      assert SetOf(removed) + idle == Dropped(old(State()), current);
      return true;
    }

    method EvictSuspendedTenant(id: string)
      requires Valid(State())
      modifies this
      ensures State() == Evict(old(State()), id)
    {
      CancelRemovedTenantConsumers([id]);
      assert SetOf([id]) == {id};
      known := known - {id};
    }

    method CloseAll()
      requires Valid(State())
      modifies this
      ensures State() == Close(old(State()))
    {
      closed := true;
      ghost var r := State();
      assert contexts == Stop(r, {}).contexts;
      var order := Enumerate(tenants.Keys);
      for i := 0 to |order|
        invariant State() == r.(contexts := Stop(r, SetOf(order[..i])).contexts)
      {
        EnumerateStep(order, i);
        StopOne(r, SetOf(order[..i]), order[i]);
        Cancel(tenants[order[i]]);
      }
      assert order[..|order|] == order;
      assert contexts == Stop(old(State()), old(tenants).Keys).contexts;
      tenants, known, absences := map[], {}, map[];
    }

    method StartTenantConsumer(id: string)
      modifies this`tenants, this`contexts
      ensures State() == Start(old(State()), id)
    {
      tenants := tenants[id := |contexts|];
      contexts := contexts + [Context(id, true)];
    }
  }

  /** Stopping a tenant that is not running any more changes nothing. */
  lemma StopAgain(r: Registry, done: set<string>, id: string)
    requires Valid(r) && id !in Stop(r, done).tenants
    ensures Stop(r, done + {id}) == Stop(r, done)
  {
    assert id in r.tenants ==> id in done;
    assert r.tenants - (done + {id}) == r.tenants - done;
    assert Stop(r, done + {id}).contexts == Stop(r, done).contexts;
  }
}
