/** What holds when no cycle works on an event for as long as the processing timeout, and every
    successful delivery is recorded: no two cycles hold the same event, and no event is delivered
    twice. */
module OutboxExclusivity {
  import opened OutboxTable
  import opened OutboxProtocol

  /** No event is still being worked on once its claim is old enough to be reclaimed. */
  ghost predicate Timely(c: Limits, s: State) {
    forall k :: k in s.items ==> s.now < s.items[k].claimedAt + c.timeout
  }

  /** A success is recorded: its state update arrives, and the worker does not stop before it. */
  predicate Reliable(s: State, a: Action) {
    && (a.RecordSuccess? ==> a.arrives)
    && (a.Drop? && (a.worker, a.id) in s.items ==> s.items[(a.worker, a.id)].phase != Accepted)
  }

  ghost predicate HeldAccepted(s: State, id: Id) {
    exists k :: k in s.items && k.1 == id && s.items[k].phase == Accepted
  }

  /** Each held event is in PROCESSING since the very claim it is held under. */
  ghost predicate Owned(s: State) {
    && (forall k :: k in s.items ==>
          k.1 in s.rows && s.rows[k.1].status == Processing && s.rows[k.1].updatedAt == s.items[k].claimedAt)
    && (forall k, l :: k in s.items && l in s.items && k.1 == l.1 ==> k == l)
  }

  ghost predicate DeliveredOnce(s: State) {
    && s.rows.Keys == s.sent.Keys
    && (forall id :: id in s.rows ==> s.sent[id] <= 1)
    && (forall id :: id in s.rows && s.sent[id] == 1 ==> s.rows[id].status == Published || HeldAccepted(s, id))
    && (forall k :: k in s.items && k.1 in s.sent && s.items[k].phase != Accepted ==> s.sent[k.1] == 0)
  }

  ghost predicate Exclusive(s: State) { Owned(s) && DeliveredOnce(s) && s.ledger.Keys == s.rows.Keys }

  /** Rows that can be claimed are held by nobody and were never delivered. */
  ghost predicate Free(s: State, ids: set<Id>) {
    && ids <= s.rows.Keys
    && (forall id :: id in ids ==> s.rows[id].status != Published)
    && (forall k :: k in s.items ==> k.1 !in ids)
  }

  lemma ClaimableIsFree(c: Limits, s: State, a: Action)
    requires ValidLimits(c) && Exclusive(s) && Timely(c, s) && Enabled(c, s, a)
    requires a.ClaimPending? || a.ClaimFailed? || a.Reclaim?
    ensures Free(s, a.ids)
  {
  }

  lemma ClaimKeepsOwned(s: State, ids: set<Id>, claimed: set<Id>, handed: set<Id>, w: Worker, change: Row -> Row)
    requires Exclusive(s) && Free(s, ids) && handed <= claimed <= ids
    requires forall id :: id in handed ==>
      change(s.rows[id]).status == Processing && change(s.rows[id]).updatedAt == s.now
    ensures Owned(Claim(s, Update(s.rows, ids, change), claimed, handed, w))
  {
  }

  lemma ClaimKeepsDelivered(s: State, ids: set<Id>, claimed: set<Id>, handed: set<Id>, w: Worker, change: Row -> Row)
    requires Exclusive(s) && Free(s, ids) && handed <= claimed <= ids
    ensures DeliveredOnce(Claim(s, Update(s.rows, ids, change), claimed, handed, w))
  {
    var s' := Claim(s, Update(s.rows, ids, change), claimed, handed, w);
    forall id | id in ids
      ensures s.sent[id] == 0
    {
      assert s.sent[id] == 1 ==> HeldAccepted(s, id);
    }
    forall id | id in s'.rows && s'.sent[id] == 1
      ensures s'.rows[id].status == Published || HeldAccepted(s', id)
    {
      if s.rows[id].status != Published {
        var k :| k in s.items && k.1 == id && s.items[k].phase == Accepted;
        assert k in s'.items && s'.items[k] == s.items[k];
      }
    }
  }

  lemma ClaimKeepsExclusive(s: State, ids: set<Id>, claimed: set<Id>, received: bool, w: Worker, change: Row -> Row)
    requires Exclusive(s) && Free(s, ids) && claimed <= ids
    requires forall id :: id in claimed ==>
      change(s.rows[id]).status == Processing && change(s.rows[id]).updatedAt == s.now
    ensures Exclusive(Claim(s, Update(s.rows, ids, change), claimed, if received then claimed else {}, w))
  {
    var handed := if received then claimed else {};
    ClaimKeepsOwned(s, ids, claimed, handed, w, change);
    ClaimKeepsDelivered(s, ids, claimed, handed, w, change);
  }

  lemma HeldStays(s: State, s': State, id: Id, gone: (Worker, Id))
    requires HeldAccepted(s, id) && gone.1 != id
    requires forall k :: k in s.items && k != gone ==> k in s'.items && s'.items[k] == s.items[k]
    ensures HeldAccepted(s', id)
  {
    var k :| k in s.items && k.1 == id && s.items[k].phase == Accepted;
    assert k in s'.items;
  }

  /** The state after a handler call for the event that k holds. */
  function Called(s: State, k: (Worker, Id), item: Item, ledger: map<Id, seq<nat>>, delivered: bool): State
    requires k.1 in s.sent
  {
    s.(items := s.items[k := item], ledger := ledger,
       sent := if delivered then s.sent[k.1 := s.sent[k.1] + 1] else s.sent)
  }

  lemma CalledKeepsHeld(s: State, k: (Worker, Id), item: Item, ledger: map<Id, seq<nat>>, delivered: bool, i: Id)
    requires Exclusive(s) && k in s.items && s.items[k].phase != Accepted && (delivered <==> item.phase == Accepted)
    requires i in s.rows && Called(s, k, item, ledger, delivered).sent[i] == 1
    ensures s.rows[i].status == Published || HeldAccepted(Called(s, k, item, ledger, delivered), i)
  {
    var s' := Called(s, k, item, ledger, delivered);
    if i == k.1 {
      assert k in s'.items && s'.items[k].phase == Accepted;
    } else if s.rows[i].status != Published {
      HeldStays(s, s', i, k);
    }
  }

  lemma CalledKeepsExclusive(s: State, k: (Worker, Id), item: Item, ledger: map<Id, seq<nat>>, delivered: bool)
    requires Exclusive(s) && k in s.items && s.items[k].phase != Accepted && (delivered <==> item.phase == Accepted)
    requires item.claimedAt == s.items[k].claimedAt && ledger.Keys == s.ledger.Keys
    ensures Exclusive(Called(s, k, item, ledger, delivered))
  {
    var s' := Called(s, k, item, ledger, delivered);
    forall i | i in s'.rows && s'.sent[i] == 1
      ensures s'.rows[i].status == Published || HeldAccepted(s', i)
    {
      CalledKeepsHeld(s, k, item, ledger, delivered, i);
    }
  }

  lemma CallIsCalled(c: Limits, s: State, w: Worker, id: Id, reply: Reply)
    requires Enabled(c, s, Call(w, id, reply)) && id in s.sent
    ensures var item := s.items[(w, id)];
            Apply(c, s, Call(w, id, reply)) ==
            Called(s, (w, id), AfterReply(c, item, reply), CountCall(s.ledger, id, item.ticket), reply == Ok)
  {
  }

  lemma CallKeepsExclusive(c: Limits, s: State, w: Worker, id: Id, reply: Reply)
    requires ValidLimits(c) && Exclusive(s) && Enabled(c, s, Call(w, id, reply))
    ensures Exclusive(Apply(c, s, Call(w, id, reply)))
  {
    var item := s.items[(w, id)];
    CallIsCalled(c, s, w, id, reply);
    CalledKeepsExclusive(s, (w, id), AfterReply(c, item, reply), CountCall(s.ledger, id, item.ticket), reply == Ok);
  }

  /** Leaving an event keeps exclusivity, unless it was delivered and its row does not say so. */
  lemma LeaveKeepsExclusive(s: State, w: Worker, id: Id, rows: Table)
    requires Exclusive(s) && (w, id) in s.items && rows.Keys == s.rows.Keys
    requires forall i :: i in rows && i != id ==> rows[i] == s.rows[i]
    requires s.items[(w, id)].phase == Accepted ==> rows[id].status == Published
    ensures Exclusive(s.(rows := rows, items := s.items - {(w, id)}))
  {
    var s' := s.(rows := rows, items := s.items - {(w, id)});
    forall i | i in s'.rows && s'.sent[i] == 1
      ensures s'.rows[i].status == Published || HeldAccepted(s', i)
    {
      if i == id {
        assert s.items[(w, id)].phase == Accepted;
      } else if s.rows[i].status != Published {
        HeldStays(s, s', i, (w, id));
      }
    }
  }

  /** The accepted events are still held. */
  ghost predicate KeepsAccepted(s: State, s': State) {
    forall k :: k in s.items && s.items[k].phase == Accepted ==> k in s'.items && s'.items[k] == s.items[k]
  }

  lemma AcceptedStays(s: State, s': State, i: Id)
    requires HeldAccepted(s, i) && KeepsAccepted(s, s')
    ensures HeldAccepted(s', i)
  {
    var k :| k in s.items && k.1 == i && s.items[k].phase == Accepted;
    assert k in s'.items;
  }

  lemma CreateKeepsExclusive(s: State, id: Id, row: Row)
    requires Exclusive(s) && id !in s.rows
    ensures Exclusive(s.(rows := s.rows[id := row], ledger := s.ledger[id := []], sent := s.sent[id := 0]))
  {
    var s' := s.(rows := s.rows[id := row], ledger := s.ledger[id := []], sent := s.sent[id := 0]);
    forall i | i in s'.rows && s'.sent[i] == 1
      ensures s'.rows[i].status == Published || HeldAccepted(s', i)
    {
      if s.rows[i].status != Published {
        AcceptedStays(s, s', i);
      }
    }
  }

  lemma InterruptKeepsExclusive(s: State, k: (Worker, Id), phase: Phase)
    requires Exclusive(s) && k in s.items && s.items[k].phase != Accepted && phase != Accepted
    ensures Exclusive(s.(items := s.items[k := s.items[k].(phase := phase)]))
  {
    var s' := s.(items := s.items[k := s.items[k].(phase := phase)]);
    forall i | i in s'.rows && s'.sent[i] == 1
      ensures s'.rows[i].status == Published || HeldAccepted(s', i)
    {
      if s.rows[i].status != Published {
        AcceptedStays(s, s', i);
      }
    }
  }

  lemma TickKeepsExclusive(s: State, time: int)
    requires Exclusive(s)
    ensures Exclusive(s.(now := time))
  {
    var s' := s.(now := time);
    forall i | i in s'.rows && s'.sent[i] == 1
      ensures s'.rows[i].status == Published || HeldAccepted(s', i)
    {
      if s.rows[i].status != Published {
        AcceptedStays(s, s', i);
      }
    }
  }

  lemma ClaimStepKeepsExclusive(c: Limits, s: State, a: Action)
    requires ValidLimits(c) && Exclusive(s) && Timely(c, s) && Enabled(c, s, a)
    requires a.ClaimPending? || a.ClaimFailed? || a.Reclaim?
    ensures Exclusive(Apply(c, s, a))
  {
    ClaimableIsFree(c, s, a);
    if a.Reclaim? {
      var retried := set id | id in a.ids && s.rows[id].attempts + 1 < c.maxAttempts;
      ClaimKeepsExclusive(s, a.ids, retried, a.received, a.worker, row => Reclaimed(row, c.maxAttempts, s.now));
    } else {
      ClaimKeepsExclusive(s, a.ids, a.ids, a.received, a.worker, row => Claimed(row, s.now));
    }
  }

  lemma LeaveStepKeepsExclusive(c: Limits, s: State, a: Action)
    requires ValidLimits(c) && Exclusive(s) && Enabled(c, s, a) && Reliable(s, a)
    requires a.RecordSuccess? || a.RecordFailure? || a.Drop?
    ensures Exclusive(Apply(c, s, a))
  {
    LeaveKeepsExclusive(s, a.worker, a.id, Apply(c, s, a).rows);
  }

  lemma StepKeepsExclusive(c: Limits, s: State, a: Action)
    requires ValidLimits(c) && Exclusive(s) && Timely(c, s) && Enabled(c, s, a) && Reliable(s, a)
    ensures Exclusive(Apply(c, s, a))
  {
    if a.ClaimPending? || a.ClaimFailed? || a.Reclaim? {
      ClaimStepKeepsExclusive(c, s, a);
    } else if a.RecordSuccess? || a.RecordFailure? || a.Drop? {
      LeaveStepKeepsExclusive(c, s, a);
    } else {
      match a
      case Create(id, eventType) => CreateKeepsExclusive(s, id, Row(eventType, Pending, 0, s.now));
      case Call(w, id, reply) => CallKeepsExclusive(c, s, w, id, reply);
      case Interrupt(w, id, nonRetryable) => InterruptKeepsExclusive(s, (w, id), GaveUp(nonRetryable));
      case Tick(time) => TickKeepsExclusive(s, time);
    }
  }

  ghost predicate TimelyRun(c: Limits, run: seq<State>, acts: seq<Action>) {
    && IsRun(c, run, acts)
    && (forall i :: 0 <= i < |run| ==> Timely(c, run[i]))
    && (forall i :: 0 <= i < |acts| ==> Reliable(run[i], acts[i]))
  }

  lemma {:induction false} RunKeepsExclusive(c: Limits, run: seq<State>, acts: seq<Action>, n: nat)
    requires ValidLimits(c) && TimelyRun(c, run, acts) && n < |run|
    ensures Exclusive(run[n])
  {
    if n > 0 {
      RunKeepsExclusive(c, run, acts, n - 1);
      StepKeepsExclusive(c, run[n - 1], acts[n - 1]);
    }
  }

  /** In a timely run no two workers ever hold the same event, and each event has at most one
      successful handler call in the whole run. */
  lemma BatchesAreDisjoint(c: Limits, run: seq<State>, acts: seq<Action>, n: nat, v: Worker, w: Worker, id: Id)
    requires ValidLimits(c) && TimelyRun(c, run, acts) && n < |run|
    ensures (v, id) in run[n].items && (w, id) in run[n].items ==> v == w
    ensures Deliveries(acts, n, id) <= 1
  {
    RunKeepsExclusive(c, run, acts, n);
    LedgerCountsActions(c, run, acts, n, id);
  }

  /** The bound on working time is exact: an event that a worker holds can be reclaimed by another
      if and only if its claim has reached the timeout, that very instant included. */
  lemma ReclaimableIffTimedOut(c: Limits, s: State, v: Worker, w: Worker, id: Id)
    requires ValidLimits(c) && Exclusive(s) && (v, id) in s.items
    ensures (exists before :: Enabled(c, s, Reclaim(w, {id}, before, true)))
       <==> s.items[(v, id)].claimedAt + c.timeout <= s.now
  {
    if s.items[(v, id)].claimedAt + c.timeout <= s.now {
      assert Enabled(c, s, Reclaim(w, {id}, s.now - c.timeout, true));
    }
    forall before | Enabled(c, s, Reclaim(w, {id}, before, true))
      ensures s.items[(v, id)].claimedAt + c.timeout <= s.now
    {
      assert IsStuck(s.rows[id], before);
    }
  }

  /** Both workers then hold the event, so it can be delivered twice. */
  lemma ReclaimedIsHeldTwice(c: Limits, s: State, v: Worker, w: Worker, id: Id, before: int)
    requires ValidLimits(c) && Exclusive(s) && (v, id) in s.items && v != w
    requires Enabled(c, s, Reclaim(w, {id}, before, true)) && s.rows[id].attempts + 1 < c.maxAttempts
    ensures var s' := Apply(c, s, Reclaim(w, {id}, before, true)); (v, id) in s'.items && (w, id) in s'.items
  {
    var retried := set i | i in {id} && s.rows[i].attempts + 1 < c.maxAttempts;
    assert id in retried;
  }
}
