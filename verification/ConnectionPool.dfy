/** Custody of connections in a per-tenant pool: what each step under or outside the pool's lock does
    to the connections that were opened. */
module ConnectionPool {
  import opened Options

  /** cache and accessed are the pool's two maps; held lists the connections that calls in flight
      still have to close or cache; dialedFor has the tenant of every connection, in the order they
      were opened. */
  datatype Pool = Pool(closed: bool, cache: map<string, nat>, accessed: map<string, int>,
                       dialedFor: seq<string>, shut: set<nat>, held: map<nat, set<nat>>)
  {
    function Made(): nat { |dialedFor| }
  }

  const EMPTY := Pool(false, map[], map[], [], {}, map[])

  datatype Place = InCache(tenant: string) | InFlight(call: nat)

  function HeldBy(p: Pool, call: nat): set<nat> { if call in p.held then p.held[call] else {} }

  predicate At(p: Pool, c: nat, x: Place) {
    match x
    case InCache(t) => t in p.cache && p.cache[t] == c
    case InFlight(call) => c in HeldBy(p, call)
  }

  /** The connection was dialed for this tenant. */
  predicate IsFor(p: Pool, c: nat, t: string) { c < p.Made() && p.dialedFor[c] == t }

  /** Out of the hands of calls: closed, or in the cache, from where Close takes it. */
  ghost predicate Settled(p: Pool, c: nat) { c in p.shut || exists t :: At(p, c, InCache(t)) }

  /** Nothing leaks: a connection that is not shut is in the cache or in the hands of a call, and no
      connection is ever in two places. */
  ghost predicate Inv(p: Pool) {
    && p.cache.Keys == p.accessed.Keys
    && (p.closed ==> p.cache == map[])
    && (forall t :: t in p.cache ==> IsFor(p, p.cache[t], t))
    && (forall c: nat, x :: At(p, c, x) ==> c < p.Made())
    && (forall c: nat, x, y :: At(p, c, x) && At(p, c, y) ==> x == y)
    && (forall c: nat :: c < p.Made() && c !in p.shut ==> exists x :: At(p, c, x))
  }

  // ---------- what a step can do ----------

  function Touch(p: Pool, t: string, now: int): Pool
    requires t in p.cache
  {
    p.(accessed := p.accessed[t := now])
  }

  function Open(p: Pool, call: nat, t: string): Pool {
    p.(dialedFor := p.dialedFor + [t], held := p.held[call := HeldBy(p, call) + {p.Made()}])
  }

  function Shut(p: Pool, c: nat): Pool { p.(shut := p.shut + {c}) }

  /** A call closes a connection it holds. */
  function Discard(p: Pool, call: nat, c: nat): Pool {
    p.(shut := p.shut + {c}, held := p.held[call := HeldBy(p, call) - {c}])
  }

  /** Drops the entry of a tenant, if any. */
  function Remove(p: Pool, t: string): Pool { p.(cache := p.cache - {t}, accessed := p.accessed - {t}) }

  /** Closes the connection of a tenant, if any, and drops its entry. */
  function CloseOne(p: Pool, t: string): Pool {
    if t in p.cache then Remove(Shut(p, p.cache[t]), t) else p
  }

  function Evict(p: Pool, victim: Option<string>): Pool {
    if victim.Some? then CloseOne(p, victim.value) else p
  }

  /** Takes the entries of some tenants out of the cache, to be closed later by the call. */
  ghost function Capture(p: Pool, call: nat, ts: set<string>): Pool {
    p.(cache := p.cache - ts, accessed := p.accessed - ts,
       held := p.held[call := HeldBy(p, call) + set t | t in ts && t in p.cache :: p.cache[t]])
  }

  /** A call caches a connection it holds. */
  function Put(p: Pool, call: nat, t: string, c: nat, now: int): Pool {
    p.(cache := p.cache[t := c], accessed := p.accessed[t := now], held := p.held[call := HeldBy(p, call) - {c}])
  }

  // ---------- each keeps the invariant ----------

  lemma TouchKeeps(p: Pool, t: string, now: int)
    requires Inv(p) && t in p.cache
    ensures Inv(Touch(p, t, now))
  {
    assert forall d, x :: At(Touch(p, t, now), d, x) <==> At(p, d, x);
  }

  lemma OpenKeeps(p: Pool, call: nat, t: string)
    requires Inv(p)
    ensures Inv(Open(p, call, t)) && IsFor(Open(p, call, t), p.Made(), t)
  {
    var q := Open(p, call, t);
    assert At(q, p.Made(), InFlight(call));
    forall c: nat, x | At(q, c, x) ensures At(p, c, x) || (c == p.Made() && x == InFlight(call)) {}
    assert forall x :: !At(p, p.Made(), x);
    forall c: nat | c < p.Made() && c !in p.shut ensures exists x :: At(q, c, x) {
      var x :| At(p, c, x);
      assert At(q, c, x);
    }
  }

  lemma ShutKeeps(p: Pool, c: nat)
    requires Inv(p)
    ensures Inv(Shut(p, c))
  {
    assert forall d, x :: At(Shut(p, c), d, x) <==> At(p, d, x);
  }

  lemma DiscardKeeps(p: Pool, call: nat, c: nat)
    requires Inv(p)
    ensures Inv(Discard(p, call, c))
  {
    var q := Discard(p, call, c);
    assert forall d, x :: At(q, d, x) ==> At(p, d, x);
    forall d: nat | d < q.Made() && d !in q.shut ensures exists x :: At(q, d, x) {
      var x :| At(p, d, x);
      assert At(q, d, x);
    }
  }

  lemma RemoveKeeps(p: Pool, t: string)
    requires Inv(p) && (t in p.cache ==> p.cache[t] in p.shut)
    ensures Inv(Remove(p, t))
  {
    var q := Remove(p, t);
    assert forall d, x :: At(q, d, x) ==> At(p, d, x);
    forall d: nat | d < q.Made() && d !in q.shut ensures exists x :: At(q, d, x) {
      var x :| At(p, d, x);
      assert At(q, d, x);
    }
  }

  lemma CloseOneKeeps(p: Pool, t: string)
    requires Inv(p)
    ensures Inv(CloseOne(p, t)) && CloseOne(p, t).held == p.held && CloseOne(p, t).dialedFor == p.dialedFor
  {
    if t in p.cache {
      ShutKeeps(p, p.cache[t]);
      RemoveKeeps(Shut(p, p.cache[t]), t);
    }
  }

  lemma PutKeeps(p: Pool, call: nat, t: string, c: nat, now: int)
    requires Inv(p) && !p.closed && c in HeldBy(p, call) && (t in p.cache ==> p.cache[t] in p.shut) && IsFor(p, c, t)
    ensures Inv(Put(p, call, t, c, now))
  {
    var q := Put(p, call, t, c, now);
    assert At(p, c, InFlight(call)) && At(q, c, InCache(t));
    forall d, x | At(q, d, x) && d != c ensures At(p, d, x) {}
    forall x | At(q, c, x) ensures x == InCache(t) {
      if x != InCache(t) {
        assert At(p, c, x);
      }
    }
    forall d: nat | d < q.Made() && d !in q.shut ensures exists x :: At(q, d, x) {
      var x :| At(p, d, x);
      assert d != c ==> At(q, d, x);
    }
  }

  lemma CaptureKeeps(p: Pool, call: nat, ts: set<string>)
    requires Inv(p)
    ensures Inv(Capture(p, call, ts))
  {
    var q := Capture(p, call, ts);
    forall d, x | At(q, d, x)
      ensures At(p, d, x) || (x == InFlight(call) && exists t :: t in ts && At(p, d, InCache(t)))
    {
      if x == InFlight(call) && d !in HeldBy(p, call) {
        var t :| t in ts && t in p.cache && p.cache[t] == d;
        assert At(p, d, InCache(t));
      }
    }
    forall d, x, y | At(q, d, x) && At(q, d, y) ensures x == y {}
    forall d: nat | d < q.Made() && d !in q.shut ensures exists x :: At(q, d, x) {
      var x :| At(p, d, x);
      assert At(q, d, x) || At(q, d, InFlight(call));
    }
  }

  /** Once closed, with no call holding a connection, everything that was opened is shut. */
  lemma NothingLeftOpen(p: Pool)
    requires Inv(p) && p.closed && forall call :: HeldBy(p, call) == {}
    ensures p.cache == map[] && p.accessed == map[] && forall c: nat :: c < p.Made() ==> c in p.shut
  {
    assert forall c: nat, x :: !At(p, c, x);
  }
}
