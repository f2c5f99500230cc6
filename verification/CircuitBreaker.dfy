/** The circuit breaker of the Tenant Manager client. */
module CircuitBreaker {
  datatype Mode = Closed | Open | HalfOpen

  datatype Settings = Settings(threshold: int, timeout: int)

  datatype State = State(failures: nat, lastFailure: int, mode: Mode)

  /** What runs under the breaker's mutex, in the order it gets it. */
  datatype Event = Checked(at: int) | Failed(at: int) | Succeeded

  predicate Refuses(cfg: Settings, s: State, now: int) {
    cfg.threshold > 0 && s.mode == Open && !(now - s.lastFailure > cfg.timeout)
  }

  function Step(cfg: Settings, s: State, e: Event): State {
    if cfg.threshold <= 0 then s
    else
      match e
      case Checked(now) => if s.mode == Open && !Refuses(cfg, s, now) then s.(mode := HalfOpen) else s
      case Succeeded => s.(failures := 0, mode := Closed)
      case Failed(now) => State(s.failures + 1, now, if s.failures + 1 >= cfg.threshold then Open else s.mode)
  }

  class Breaker {
    const cfg: Settings
    var failures: nat
    var lastFailure: int
    var mode: Mode

    ghost function Value(): State
      reads this
    {
      State(failures, lastFailure, mode)
    }

    constructor (cfg: Settings)
      ensures this.cfg == cfg && Value() == State(0, 0, Closed)
    {
      this.cfg, failures, lastFailure, mode := cfg, 0, 0, Closed;
    }

    method Check(now: int) returns (allowed: bool)
      modifies this
      ensures allowed == !Refuses(cfg, old(Value()), now)
      ensures Value() == Step(cfg, old(Value()), Checked(now))
    {
      if cfg.threshold <= 0 {
        return true;
      }
      if mode == Open {
        if now - lastFailure > cfg.timeout {
          mode := HalfOpen;
          return true;
        }
        return false;
      }
      return true;
    }

    method RecordSuccess()
      modifies this
      ensures Value() == Step(cfg, old(Value()), Succeeded)
    {
      if cfg.threshold <= 0 {
        return;
      }
      failures, mode := 0, Closed;
    }

    method RecordFailure(now: int)
      modifies this
      ensures Value() == Step(cfg, old(Value()), Failed(now))
    {
      if cfg.threshold <= 0 {
        return;
      }
      failures := failures + 1;
      lastFailure := now;
      if failures >= cfg.threshold {
        mode := Open;
      }
    }
  }

  function After(cfg: Settings, h: seq<Event>): State {
    if h == [] then State(0, 0, Closed) else Step(cfg, After(cfg, h[..|h| - 1]), h[|h| - 1])
  }

  // ---------- the history ----------

  /** The events follow a clock that does not run backwards and has not passed now. */
  ghost predicate Monotone(h: seq<Event>, now: int) {
    && (forall i :: 0 <= i < |h| && !h[i].Succeeded? ==> h[i].at <= now)
    && (forall i, j :: 0 <= i < j < |h| && !h[i].Succeeded? && !h[j].Succeeded? ==> h[i].at <= h[j].at)
  }

  function CountFailures(h: seq<Event>): nat {
    if h == [] then 0 else CountFailures(h[..|h| - 1]) + if h[|h| - 1].Failed? then 1 else 0
  }

  /** At least n failures were recorded and no success after the first of them. */
  ghost predicate FailedSinceSuccess(h: seq<Event>, n: int) {
    exists k :: 0 <= k <= |h| && Succeeded !in h[k..] && CountFailures(h[k..]) >= n
  }

  /** Every failure is older than the timeout. */
  ghost predicate AllFailuresExpired(cfg: Settings, h: seq<Event>, now: int) {
    forall i :: 0 <= i < |h| && h[i].Failed? ==> now - h[i].at > cfg.timeout
  }

  lemma SinceAfter(h: seq<Event>, e: Event, n: int)
    requires n > 0
    ensures FailedSinceSuccess(h + [e], n) <==>
              match e
              case Checked(_) => FailedSinceSuccess(h, n)
              case Failed(_) => n == 1 || FailedSinceSuccess(h, n - 1)
              case Succeeded => false
  {
    var g := h + [e];
    var m := if e.Failed? then n - 1 else n;
    forall k | 0 <= k <= |h| ensures CountFailures(g[k..]) == CountFailures(h[k..]) + (if e.Failed? then 1 else 0)
      ensures Succeeded in g[k..] <==> Succeeded in h[k..] || e.Succeeded?
    {
      assert g[k..] == h[k..] + [e] && g[k..][..|g[k..]| - 1] == h[k..];
    }
    if FailedSinceSuccess(g, n) {
      var k :| 0 <= k <= |g| && Succeeded !in g[k..] && CountFailures(g[k..]) >= n;
      assert k <= |h|;
      assert Succeeded !in h[k..] && CountFailures(h[k..]) >= m;
    }
    if !e.Succeeded? && FailedSinceSuccess(h, m) {
      var k :| 0 <= k <= |h| && Succeeded !in h[k..] && CountFailures(h[k..]) >= m;
      assert Succeeded !in g[k..] && CountFailures(g[k..]) >= n;
    }
    if e.Failed? && n == 1 {
      assert h[|h|..] == [];
      assert Succeeded !in g[|h|..] && CountFailures(g[|h|..]) >= n;
    }
  }

  /** What the three fields say about the history. */
  ghost predicate Describes(cfg: Settings, s: State, h: seq<Event>, now: int) {
    && (forall n :: n > 0 ==> (FailedSinceSuccess(h, n) <==> s.failures >= n))
    && (s.mode == Closed <==> s.failures < cfg.threshold)
    && (s.mode == HalfOpen ==> AllFailuresExpired(cfg, h, now))
    && (s.failures > 0 ==> Failed(s.lastFailure) in h)
    && (forall i :: 0 <= i < |h| && h[i].Failed? ==> h[i].at <= s.lastFailure)
  }

  lemma StepDescribes(cfg: Settings, s: State, h: seq<Event>, e: Event, now: int, later: int)
    requires cfg.threshold > 0 && Describes(cfg, s, h, now) && now <= later
    requires !e.Succeeded? ==> now <= e.at <= later
    requires Monotone(h, now)
    ensures Describes(cfg, Step(cfg, s, e), h + [e], later)
  {
    forall n | n > 0 ensures FailedSinceSuccess(h + [e], n) <==> Step(cfg, s, e).failures >= n {
      SinceAfter(h, e, n);
    }
    assert (h + [e])[|h|] == e;
  }

  lemma {:induction false} BreakerDescribes(cfg: Settings, h: seq<Event>, now: int)
    requires cfg.threshold > 0 && Monotone(h, now)
    ensures Describes(cfg, After(cfg, h), h, now)
  {
    if h != [] {
      var g, e := h[..|h| - 1], h[|h| - 1];
      var before := if e.Succeeded? then now else e.at;
      assert forall i :: 0 <= i < |g| ==> g[i] == h[i];
      BreakerDescribes(cfg, g, before);
      StepDescribes(cfg, After(cfg, g), g, e, before, now);
      assert h == g + [e];
    }
  }

  /** The breaker is a predicate of the history: it refuses a request exactly if at least threshold
      failures were recorded since the last success and some failure is not older than the timeout. */
  lemma RefusalIsHistory(cfg: Settings, h: seq<Event>, now: int)
    requires Monotone(h, now)
    ensures Refuses(cfg, After(cfg, h), now) <==>
              cfg.threshold > 0 && FailedSinceSuccess(h, cfg.threshold) && !AllFailuresExpired(cfg, h, now)
  {
    if cfg.threshold > 0 {
      BreakerDescribes(cfg, h, now);
    }
  }

  /** Once the timeout has passed every request is admitted, not one probe, until a result arrives. */
  lemma HalfOpenAdmitsAll(cfg: Settings, h: seq<Event>, checks: seq<Event>, now: int)
    requires Monotone(h + checks, now) && forall e :: e in checks ==> e.Checked?
    requires AllFailuresExpired(cfg, h, now)
    ensures !Refuses(cfg, After(cfg, h + checks), now)
  {
    var g := h + checks;
    RefusalIsHistory(cfg, g, now);
    assert forall i :: 0 <= i < |g| ==> g[i] in h || g[i] in checks;
  }
}
