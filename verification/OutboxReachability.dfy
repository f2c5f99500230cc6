/** What runs can still do: no event is ever stranded, and without the bound on working time an event
    can be delivered twice. */
module OutboxReachability {
  import opened OutboxTable
  import opened OutboxProtocol
  import opened Sequences

  // ---------- building paths ----------

  function Last(run: seq<State>): State
    requires run != []
  {
    run[|run| - 1]
  }

  lemma PathCons(c: Limits, s: State, a: Action, run: seq<State>, acts: seq<Action>)
    requires Enabled(c, s, a) && IsPath(c, run, acts) && run[0] == Apply(c, s, a)
    ensures IsPath(c, [s] + run, [a] + acts) && ([s] + run)[0] == s && Last([s] + run) == Last(run)
  {
    var longer, more := [s] + run, [a] + acts;
    forall i | 0 <= i < |more| ensures Enabled(c, longer[i], more[i]) && longer[i + 1] == Apply(c, longer[i], more[i]) {
      if i > 0 {
        assert longer[i] == run[i - 1] && more[i] == acts[i - 1] && longer[i + 1] == run[i - 1 + 1];
      }
    }
  }

  lemma PathSnoc(c: Limits, run: seq<State>, acts: seq<Action>, a: Action)
    requires IsPath(c, run, acts) && Enabled(c, Last(run), a)
    ensures IsPath(c, run + [Apply(c, Last(run), a)], acts + [a])
    ensures (run + [Apply(c, Last(run), a)])[0] == run[0]
            && Last(run + [Apply(c, Last(run), a)]) == Apply(c, Last(run), a)
  {
    var longer, more := run + [Apply(c, Last(run), a)], acts + [a];
    forall i | 0 <= i < |more| ensures Enabled(c, longer[i], more[i]) && longer[i + 1] == Apply(c, longer[i], more[i]) {
      if i < |acts| {
        assert longer[i] == run[i] && longer[i + 1] == run[i + 1] && more[i] == acts[i];
      }
    }
  }

  // ---------- every event can still finish ----------

  /** A worker that does not hold the event. */
  lemma FreshWorker(items: map<(Worker, Id), Item>, id: Id) returns (w: Worker)
    ensures (w, id) !in items
  {
    var workers := set k | k in items :: k.0;
    w := UpperBound(workers);
    assert forall k :: k in items ==> k.0 in workers;
  }

  /** The path takes the event from this state to this status. */
  ghost predicate Ends(c: Limits, s: State, id: Id, status: Status, run: seq<State>, acts: seq<Action>) {
    IsPath(c, run, acts) && run[0] == s && id in Last(run).rows && Last(run).rows[id].status == status
  }

  /** What becomes of an event once nobody works on it any more. */
  function Destiny(c: Limits, row: Row): Status {
    if row.status == Invalid || (row.status == Processing && row.attempts + 1 >= c.maxAttempts) then Invalid
    else Published
  }

  lemma RecordFinishes(c: Limits, s: State, w: Worker, id: Id) returns (run: seq<State>, acts: seq<Action>)
    requires (w, id) in s.items && s.items[(w, id)].phase == Accepted && id in s.rows && s.rows[id].status == Processing
    ensures Ends(c, s, id, Published, run, acts)
  {
    var a := RecordSuccess(w, id, true);
    run, acts := [s, Apply(c, s, a)], [a];
  }

  /** A worker that holds an event in PROCESSING can deliver it and record that. */
  lemma HolderFinishes(c: Limits, s: State, w: Worker, id: Id) returns (run: seq<State>, acts: seq<Action>)
    requires (w, id) in s.items && s.items[(w, id)].phase == Working && id in s.rows && s.rows[id].status == Processing
    ensures Ends(c, s, id, Published, run, acts)
  {
    var a := Call(w, id, Ok);
    var rest, more := RecordFinishes(c, Apply(c, s, a), w, id);
    PathCons(c, s, a, rest, more);
    run, acts := [s] + rest, [a] + more;
  }

  lemma ClaimedIsHeld(s: State, rows: Table, ids: set<Id>, handed: set<Id>, w: Worker, id: Id)
    requires id in handed && id in s.ledger && (w, id) !in s.items
    ensures var s' := Claim(s, rows, ids, handed, w); (w, id) in s'.items && s'.items[(w, id)].phase == Working
  {
  }

  lemma ClaimFinishes(c: Limits, s: State, a: Action, id: Id) returns (run: seq<State>, acts: seq<Action>)
    requires Enabled(c, s, a) && id in s.ledger && (a.ClaimPending? || a.ClaimFailed?)
    requires a.ids == {id} && a.received && (a.worker, id) !in s.items
    ensures Ends(c, s, id, Published, run, acts)
  {
    var s' := Apply(c, s, a);
    ClaimedIsHeld(s, s'.rows, {id}, {id}, a.worker, id);
    var rest, more := HolderFinishes(c, s', a.worker, id);
    PathCons(c, s, a, rest, more);
    run, acts := [s] + rest, [a] + more;
  }

  /** Reclaiming gives the event up or hands it to the worker. */
  lemma ReclaimFinishes(c: Limits, s: State, w: Worker, id: Id, before: int)
    returns (run: seq<State>, acts: seq<Action>)
    requires Enabled(c, s, Reclaim(w, {id}, before, true)) && id in s.ledger && (w, id) !in s.items
    ensures Ends(c, s, id, Destiny(c, s.rows[id]), run, acts)
  {
    var a := Reclaim(w, {id}, before, true);
    var s' := Apply(c, s, a);
    if s.rows[id].attempts + 1 >= c.maxAttempts {
      run, acts := [s, s'], [a];
    } else {
      var retried := set i | i in {id} && s.rows[i].attempts + 1 < c.maxAttempts;
      assert id in retried;
      ClaimedIsHeld(s, s'.rows, retried, retried, w, id);
      var rest, more := HolderFinishes(c, s', w, id);
      PathCons(c, s, a, rest, more);
      run, acts := [s] + rest, [a] + more;
    }
  }

  lemma StuckFinishes(c: Limits, s: State, w: Worker, id: Id) returns (run: seq<State>, acts: seq<Action>)
    requires id in s.rows && s.rows[id].status == Processing && id in s.ledger && (w, id) !in s.items
    ensures Ends(c, s, id, Destiny(c, s.rows[id]), run, acts)
  {
    var due := s.rows[id].updatedAt + c.timeout;
    var tick := Tick(if due < s.now then s.now else due);
    var rest, more := ReclaimFinishes(c, Apply(c, s, tick), w, id, s.rows[id].updatedAt);
    PathCons(c, s, tick, rest, more);
    run, acts := [s] + rest, [tick] + more;
  }

  /** No event is ever stranded: from every reachable state, whatever crashed or was lost before, some
      continuation publishes it, or makes it INVALID if its last attempt is already under way. */
  lemma EveryEventCanFinish(c: Limits, run: seq<State>, acts: seq<Action>, n: nat, id: Id)
    returns (more: seq<State>, todo: seq<Action>)
    requires ValidLimits(c) && IsRun(c, run, acts) && n < |run| && id in run[n].rows
    ensures Ends(c, run[n], id, Destiny(c, run[n].rows[id]), more, todo)
  {
    RunKeepsInv(c, run, acts, n);
    var s := run[n];
    var w := FreshWorker(s.items, id);
    match s.rows[id].status {
      case Pending => more, todo := ClaimFinishes(c, s, ClaimPending(w, {id}, true), id);
      case Failed => more, todo := ClaimFinishes(c, s, ClaimFailed(w, {id}, s.rows[id].updatedAt, true), id);
      case Processing => more, todo := StuckFinishes(c, s, w, id);
      case _ => more, todo := [s], [];
    }
  }

  // ---------- delivered twice ----------

  /** Two workers hold the only event, which is in PROCESSING. */
  predicate HeldByBoth(s: State, v: Worker, w: Worker, id: Id) {
    && v != w && (v, id) in s.items && (w, id) in s.items
    && s.items[(v, id)].phase == Working && s.items[(w, id)].phase == Working
  }

  /** Worker 1 alone holds event 0, just claimed for the first time. */
  ghost predicate HeldOnce(s: State) {
    && 0 in s.rows && s.rows[0].status == Processing && s.rows[0].attempts == 0 && s.rows[0].updatedAt == 0
    && 0 in s.ledger && (1, 0) in s.items && s.items[(1, 0)].phase == Working && (2, 0) !in s.items
  }

  lemma CreateThenClaim(c: Limits) returns (run: seq<State>, acts: seq<Action>)
    ensures IsRun(c, run, acts) && HeldOnce(Last(run)) && Last(run).now == 0
    ensures forall a :: a in acts ==> !a.Call?
    ensures |acts| == 2 && 0 in run[1].rows && run[1].rows[0].status == Pending
  {
    var create, claim := Create(0, ""), ClaimPending(1, {0}, true);
    var created := Apply(c, INITIAL, create);
    ClaimedIsHeld(created, Apply(c, created, claim).rows, {0}, {0}, 1, 0);
    run, acts := [INITIAL, created, Apply(c, created, claim)], [create, claim];
  }

  lemma ReclaimHeld(c: Limits, s: State) returns (s': State)
    requires ValidLimits(c) && c.maxAttempts >= 2 && HeldOnce(s) && s.now == c.timeout
    ensures Enabled(c, s, Reclaim(2, {0}, 0, true)) && s' == Apply(c, s, Reclaim(2, {0}, 0, true))
    ensures HeldByBoth(s', 1, 2, 0)
  {
    s' := Apply(c, s, Reclaim(2, {0}, 0, true));
    var retried := set i | i in {0} && s.rows[i].attempts + 1 < c.maxAttempts;
    assert 0 in retried;
    ClaimedIsHeld(s, s'.rows, retried, retried, 2, 0);
  }

  /** A reachable state in which two workers hold the same event. */
  lemma HeldTwice(c: Limits) returns (run: seq<State>, acts: seq<Action>)
    requires ValidLimits(c) && c.maxAttempts >= 2
    ensures IsRun(c, run, acts) && HeldByBoth(Last(run), 1, 2, 0)
    ensures forall a :: a in acts ==> !a.Call?
  {
    run, acts := CreateThenClaim(c);
    var tick, reclaim := Tick(c.timeout), Reclaim(2, {0}, 0, true);
    PathSnoc(c, run, acts, tick);
    run, acts := run + [Apply(c, Last(run), tick)], acts + [tick];
    var s' := ReclaimHeld(c, Last(run));
    PathSnoc(c, run, acts, reclaim);
    run, acts := run + [s'], acts + [reclaim];
  }

  lemma {:induction false} NoCallsNoDeliveries(acts: seq<Action>, n: nat, id: Id)
    requires n <= |acts| && forall a :: a in acts ==> !a.Call?
    ensures Deliveries(acts, n, id) == 0
  {
    if n > 0 {
      NoCallsNoDeliveries(acts, n - 1, id);
    }
  }

  lemma {:induction false} DeliveriesPrefix(acts: seq<Action>, more: seq<Action>, n: nat, id: Id)
    requires n <= |acts|
    ensures Deliveries(acts + more, n, id) == Deliveries(acts, n, id)
  {
    if n > 0 {
      DeliveriesPrefix(acts, more, n - 1, id);
    }
  }

  /** With at least two attempts, a worker that goes on past the timeout can have an event delivered
      twice: the bound on working time cannot be dropped. */
  lemma DeliveredTwice(c: Limits) returns (run: seq<State>, acts: seq<Action>)
    requires ValidLimits(c) && c.maxAttempts >= 2
    ensures IsRun(c, run, acts) && Deliveries(acts, |acts|, 0) == 2
  {
    var before, quiet := HeldTwice(c);
    var first, second, n := Call(1, 0, Ok), Call(2, 0, Ok), |quiet|;
    PathSnoc(c, before, quiet, first);
    var once := before + [Apply(c, Last(before), first)];
    PathSnoc(c, once, quiet + [first], second);
    run, acts := once + [Apply(c, Last(once), second)], quiet + [first] + [second];
    CountTwo(quiet, first, second);
  }

  lemma CountTwo(quiet: seq<Action>, first: Action, second: Action)
    requires (forall a :: a in quiet ==> !a.Call?) && Delivers(first, 0) && Delivers(second, 0)
    ensures Deliveries(quiet + [first] + [second], |quiet| + 2, 0) == 2
  {
    var n, acts := |quiet|, quiet + [first] + [second];
    NoCallsNoDeliveries(quiet, n, 0);
    DeliveriesPrefix(quiet, [first] + [second], n, 0);
    assert acts == quiet + ([first] + [second]) && acts[n] == first && acts[n + 1] == second;
    assert Deliveries(acts, n + 1, 0) == 1;
  }

  // ---------- every change of the life cycle happens ----------

  /** In this run, action n takes the row of the event from one status to the other. */
  ghost predicate Moves(c: Limits, run: seq<State>, acts: seq<Action>, n: nat, id: Id, from: Status, to: Status) {
    && ValidLimits(c) && IsRun(c, run, acts) && n < |acts| && id in run[n].rows && id in run[n + 1].rows
    && run[n].rows[id].status == from && run[n + 1].rows[id].status == to && run[n + 1].rows[id] != run[n].rows[id]
  }

  ghost predicate Happens(from: Status, to: Status) {
    exists c, run, acts, n, id :: Moves(c, run, acts, n, id, from, to)
  }

  const TWICE := Limits(2, 1, 1)

  lemma NextHappens(run: seq<State>, acts: seq<Action>, a: Action, from: Status, to: Status)
    requires IsRun(TWICE, run, acts) && Enabled(TWICE, Last(run), a)
    requires var s, s' := Last(run), Apply(TWICE, Last(run), a);
             && 0 in s.rows && 0 in s'.rows
             && s.rows[0].status == from && s'.rows[0].status == to && s'.rows[0] != s.rows[0]
    ensures Happens(from, to)
  {
    PathSnoc(TWICE, run, acts, a);
    var longer, more := run + [Apply(TWICE, Last(run), a)], acts + [a];
    assert longer[|acts|] == Last(run);
    assert Moves(TWICE, longer, more, |acts|, 0, from, to);
  }

  lemma Answered(reply: Reply) returns (run: seq<State>, acts: seq<Action>)
    ensures IsRun(TWICE, run, acts)
    ensures var s := Last(run);
            && 0 in s.rows && s.rows[0].status == Processing && s.rows[0].attempts == 0 && (1, 0) in s.items
            && s.items[(1, 0)].phase == match reply
                                        case Ok => Accepted
                                        case Retryable => GaveUp(false)
                                        case NonRetryable => GaveUp(true)
  {
    run, acts := CreateThenClaim(TWICE);
    var a := Call(1, 0, reply);
    PathSnoc(TWICE, run, acts, a);
    run, acts := run + [Apply(TWICE, Last(run), a)], acts + [a];
  }

  lemma ClaimHappens()
    ensures Happens(Pending, Processing)
  {
    var run, acts := CreateThenClaim(TWICE);
    assert Moves(TWICE, run, acts, 1, 0, Pending, Processing);
  }

  lemma PublishHappens()
    ensures Happens(Processing, Published)
  {
    var run, acts := Answered(Ok);
    NextHappens(run, acts, RecordSuccess(1, 0, true), Processing, Published);
  }

  lemma RejectHappens()
    ensures Happens(Processing, Invalid)
  {
    var run, acts := Answered(NonRetryable);
    NextHappens(run, acts, RecordFailure(1, 0, true), Processing, Invalid);
  }

  lemma FailHappens() returns (run: seq<State>, acts: seq<Action>)
    ensures Happens(Processing, Failed)
    ensures IsRun(TWICE, run, acts) && 0 in Last(run).rows
    ensures Last(run).rows[0].status == Failed && Last(run).rows[0].attempts == 1
  {
    run, acts := Answered(Retryable);
    var a := RecordFailure(1, 0, true);
    NextHappens(run, acts, a, Processing, Failed);
    PathSnoc(TWICE, run, acts, a);
    run, acts := run + [Apply(TWICE, Last(run), a)], acts + [a];
  }

  lemma RetryHappens()
    ensures Happens(Failed, Processing)
  {
    var run, acts := FailHappens();
    NextHappens(run, acts, ClaimFailed(3, {0}, Last(run).rows[0].updatedAt, true), Failed, Processing);
  }

  lemma ReclaimHappens()
    ensures Happens(Processing, Processing)
  {
    var run, acts := CreateThenClaim(TWICE);
    var tick := Tick(1);
    PathSnoc(TWICE, run, acts, tick);
    run, acts := run + [Apply(TWICE, Last(run), tick)], acts + [tick];
    NextHappens(run, acts, Reclaim(2, {0}, 0, true), Processing, Processing);
  }

  lemma HappensIsAllowed(from: Status, to: Status)
    requires Happens(from, to)
    ensures CanTransitionTo(from, to)
  {
    var c, run, acts, n, id :| Moves(c, run, acts, n, id, from, to);
    StepIsLawful(c, run[n], acts[n]);
  }

  lemma ProcessingHappens(to: Status)
    requires to != Pending
    ensures Happens(Processing, to)
  {
    match to
    case Processing => ReclaimHappens();
    case Published => PublishHappens();
    case Failed => var _, _ := FailHappens();
    case Invalid => RejectHappens();
  }

  /** The life cycle is exact: a change of status is allowed if and only if it happens in some run. */
  lemma LifeCycleIsExact(from: Status, to: Status)
    ensures CanTransitionTo(from, to) <==> Happens(from, to)
  {
    if CanTransitionTo(from, to) {
      match from
      case Pending => ClaimHappens();
      case Failed => RetryHappens();
      case Processing => ProcessingHappens(to);
    } else if Happens(from, to) {
      HappensIsAllowed(from, to);
    }
  }
}
