/** Why a row is where it is: its attempts count the claims that failed or timed out, and an INVALID row
    has used up its attempts or was given up for a reason that some handler call or wait reported. */
module OutboxOutcomes {
  import opened OutboxTable
  import opened OutboxProtocol

  /** The action records that a claim of the event failed: its publish gave up but may be retried, or
      the claim has timed out. */
  predicate Fails(s: State, a: Action, id: Id) {
    && id in s.rows && s.rows[id].status == Processing
    && ((a.Reclaim? && id in a.ids)
        || (a.RecordFailure? && a.id == id && a.arrives && (a.worker, id) in s.items
            && s.items[(a.worker, id)].phase == GaveUp(false)))
  }

  /** The action records a failure that must not be retried. */
  predicate Condemns(s: State, a: Action, id: Id) {
    && id in s.rows && s.rows[id].status == Processing
    && a.RecordFailure? && a.id == id && a.arrives && (a.worker, id) in s.items
    && s.items[(a.worker, id)].phase == GaveUp(true)
  }

  /** The action records a success. */
  predicate Publishes(s: State, a: Action, id: Id) {
    id in s.rows && s.rows[id].status == Processing && a.RecordSuccess? && a.id == id && a.arrives
  }

  /** How many of the first n actions recorded a failed claim of the event. */
  function Failures(run: seq<State>, acts: seq<Action>, n: nat, id: Id): nat
    requires n <= |acts| < |run|
  {
    if n == 0 then 0 else Failures(run, acts, n - 1, id) + Bit(Fails(run[n - 1], acts[n - 1], id))
  }

  ghost predicate Condemned(run: seq<State>, acts: seq<Action>, n: nat, id: Id)
    requires n <= |acts| < |run|
  {
    exists i :: 0 <= i < n && Condemns(run[i], acts[i], id)
  }

  ghost predicate Confirmed(run: seq<State>, acts: seq<Action>, n: nat, id: Id)
    requires n <= |acts| < |run|
  {
    exists i :: 0 <= i < n && Publishes(run[i], acts[i], id)
  }

  lemma StepOutcome(c: Limits, s: State, a: Action, id: Id)
    requires Enabled(c, s, a) && id in s.rows
    ensures var row, next := s.rows[id], Apply(c, s, a).rows;
            && id in next && next[id].attempts == row.attempts + Bit(Fails(s, a, id))
            && (next[id].status == Invalid <==>
                  row.status == Invalid || Condemns(s, a, id) || (Fails(s, a, id) && row.attempts + 1 >= c.maxAttempts))
            && (next[id].status == Published <==> row.status == Published || Publishes(s, a, id))
  {
  }

  lemma StepCreates(c: Limits, s: State, a: Action, id: Id)
    requires Enabled(c, s, a) && id !in s.rows && id in Apply(c, s, a).rows
    ensures Apply(c, s, a).rows[id].attempts == 0 && Apply(c, s, a).rows[id].status == Pending
  {
  }

  /** The row of an event that failed so often, and was condemned or confirmed: its attempts count the
      failures; it is INVALID exactly if they reach the limit or it was condemned, and PUBLISHED exactly
      if it was confirmed. */
  predicate Tells(c: Limits, s: State, id: Id, failures: nat, condemned: bool, confirmed: bool) {
    if id !in s.rows then failures == 0 && !condemned && !confirmed
    else
      && s.rows[id].attempts == failures
      && (s.rows[id].status == Invalid <==> failures >= c.maxAttempts || condemned)
      && (s.rows[id].status == Published <==> confirmed)
  }

  lemma StepTells(c: Limits, s: State, a: Action, id: Id, failures: nat, condemned: bool, confirmed: bool)
    requires ValidLimits(c) && Inv(c, s) && Enabled(c, s, a) && Tells(c, s, id, failures, condemned, confirmed)
    ensures Tells(c, Apply(c, s, a), id, failures + Bit(Fails(s, a, id)),
                  condemned || Condemns(s, a, id), confirmed || Publishes(s, a, id))
  {
    if id in s.rows {
      StepOutcome(c, s, a, id);
      assert RowInv(c, s.rows[id], |s.ledger[id]|);
    } else if id in Apply(c, s, a).rows {
      StepCreates(c, s, a, id);
    }
  }

  /** In every state of every run the rows tell what the actions of the run did. */
  lemma {:induction false} RowsTellHistory(c: Limits, run: seq<State>, acts: seq<Action>, n: nat, id: Id)
    requires ValidLimits(c) && IsRun(c, run, acts) && n < |run|
    ensures Tells(c, run[n], id, Failures(run, acts, n, id), Condemned(run, acts, n, id), Confirmed(run, acts, n, id))
  {
    if n > 0 {
      RowsTellHistory(c, run, acts, n - 1, id);
      RunKeepsInv(c, run, acts, n - 1);
      StepTells(c, run[n - 1], acts[n - 1], id, Failures(run, acts, n - 1, id),
                Condemned(run, acts, n - 1, id), Confirmed(run, acts, n - 1, id));
      HistoryGrows(run, acts, n, id);
    }
  }

  lemma HistoryGrows(run: seq<State>, acts: seq<Action>, n: nat, id: Id)
    requires 0 < n <= |acts| < |run|
    ensures Condemned(run, acts, n, id) <==>
              Condemned(run, acts, n - 1, id) || Condemns(run[n - 1], acts[n - 1], id)
    ensures Confirmed(run, acts, n, id) <==>
              Confirmed(run, acts, n - 1, id) || Publishes(run[n - 1], acts[n - 1], id)
  {
  }

  // ---------- where a verdict comes from ----------

  /** The action tells the worker that the event must not be tried again. */
  predicate Dooms(a: Action, w: Worker, id: Id) { a == Call(w, id, NonRetryable) || a == Interrupt(w, id, true) }

  ghost predicate Explained(acts: seq<Action>, n: nat, w: Worker, id: Id, phase: Phase)
    requires n <= |acts|
  {
    match phase
    case Working => true
    case Accepted => exists i :: 0 <= i < n && acts[i] == Call(w, id, Ok)
    case GaveUp(nonRetryable) =>
      if nonRetryable then exists i :: 0 <= i < n && Dooms(acts[i], w, id)
      else exists i :: 0 <= i < n && (acts[i] == Call(w, id, Retryable) || acts[i] == Interrupt(w, id, false))
  }

  lemma StepExplains(c: Limits, s: State, a: Action, k: (Worker, Id))
    requires Enabled(c, s, a) && k in Apply(c, s, a).items
    ensures var phase := Apply(c, s, a).items[k].phase;
            || phase == Working || (k in s.items && phase == s.items[k].phase)
            || Explained([a], 1, k.0, k.1, phase)
  {
    assert [a][0] == a;
  }

  lemma ExplainedLater(acts: seq<Action>, n: nat, w: Worker, id: Id, phase: Phase)
    requires n < |acts| && (Explained(acts, n, w, id, phase) || Explained([acts[n]], 1, w, id, phase))
    ensures Explained(acts, n + 1, w, id, phase)
  {
    if !Explained(acts, n, w, id, phase) {
      assert [acts[n]][0] == acts[n];
    }
  }

  /** Every verdict a worker holds was reported to it. */
  lemma {:induction false} PhasesAreExplained(c: Limits, run: seq<State>, acts: seq<Action>, n: nat, k: (Worker, Id))
    requires IsRun(c, run, acts) && n < |run| && k in run[n].items
    ensures Explained(acts, n, k.0, k.1, run[n].items[k].phase)
  {
    if n > 0 {
      var s, a, phase := run[n - 1], acts[n - 1], run[n].items[k].phase;
      assert run[n] == run[n - 1 + 1] == Apply(c, s, a);
      StepExplains(c, s, a, k);
      if phase != Working {
        if k in s.items && phase == s.items[k].phase {
          PhasesAreExplained(c, run, acts, n - 1, k);
        }
        ExplainedLater(acts, n - 1, k.0, k.1, phase);
      }
    }
  }

  /** An event whose attempts are not used up becomes INVALID only for a worker that was told not to
      try it again and then recorded that. */
  lemma InvalidHasCause(c: Limits, run: seq<State>, acts: seq<Action>, n: nat, id: Id)
    requires ValidLimits(c) && IsRun(c, run, acts) && n < |run|
    requires id in run[n].rows && run[n].rows[id].status == Invalid && run[n].rows[id].attempts < c.maxAttempts
    ensures exists i, j, w :: 0 <= i < j < n && Dooms(acts[i], w, id) && acts[j] == RecordFailure(w, id, true)
  {
    RowsTellHistory(c, run, acts, n, id);
    var j :| 0 <= j < n && Condemns(run[j], acts[j], id);
    var w := acts[j].worker;
    PhasesAreExplained(c, run, acts, j, (w, id));
    var i :| 0 <= i < j && Dooms(acts[i], w, id);
    assert acts[j] == RecordFailure(w, id, true);
  }

  /** A PUBLISHED row was delivered by the very worker that recorded it. */
  lemma PublishedHasCause(c: Limits, run: seq<State>, acts: seq<Action>, n: nat, id: Id)
    requires ValidLimits(c) && IsRun(c, run, acts) && n < |run|
    requires id in run[n].rows && run[n].rows[id].status == Published
    ensures exists i, j, w :: 0 <= i < j < n && acts[i] == Call(w, id, Ok) && acts[j] == RecordSuccess(w, id, true)
  {
    RowsTellHistory(c, run, acts, n, id);
    var j :| 0 <= j < n && Publishes(run[j], acts[j], id);
    var w := acts[j].worker;
    PhasesAreExplained(c, run, acts, j, (w, id));
    var i :| 0 <= i < j && acts[i] == Call(w, id, Ok);
    assert acts[j] == RecordSuccess(w, id, true);
  }
}
