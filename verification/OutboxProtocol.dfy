/** Any number of dispatch cycles sharing one outbox table.  Each repository transaction, each
    handler call and each loss (a crash, a cancelled context, a reply or state update that never
    arrives) is one step; steps of different cycles interleave freely. */
module OutboxProtocol {
  import opened OutboxTable

  type Worker = nat

  /** Shared settings: dispatch attempts, handler calls per claim, age at which a claim is stuck. */
  datatype Limits = Limits(maxAttempts: nat, maxCalls: nat, timeout: int)

  predicate ValidLimits(c: Limits) { c.maxAttempts > 0 && c.maxCalls > 0 && c.timeout > 0 }

  datatype Phase = Working | Accepted | GaveUp(nonRetryable: bool)

  /** An event in the batch of a worker: which claim of the event this is, how many handler calls
      were made under it, and how far it got. */
  datatype Item = Item(ticket: nat, claimedAt: int, made: nat, phase: Phase)

  /** `ledger` holds, for each event, the number of handler calls made under each of its claims, in
      the order of the claims; `sent` counts the calls that succeeded. */
  datatype State = State(rows: Table, items: map<(Worker, Id), Item>,
                         ledger: map<Id, seq<nat>>, sent: map<Id, nat>, now: int)

  const INITIAL := State(map[], map[], map[], map[], 0)

  datatype Reply = Ok | Retryable | NonRetryable

  datatype Action =
    | Create(id: Id, eventType: string)
    | ClaimPending(worker: Worker, ids: set<Id>, received: bool)
    | ClaimFailed(worker: Worker, ids: set<Id>, before: int, received: bool)
    | Reclaim(worker: Worker, ids: set<Id>, before: int, received: bool)
    | Call(worker: Worker, id: Id, reply: Reply)
    | Interrupt(worker: Worker, id: Id, nonRetryable: bool)
    | RecordSuccess(worker: Worker, id: Id, arrives: bool)
    | RecordFailure(worker: Worker, id: Id, arrives: bool)
    | Drop(worker: Worker, id: Id)
    | Tick(time: int)

  predicate Enabled(c: Limits, s: State, a: Action) {
    match a
    case Create(id, _) => id !in s.rows
    case ClaimPending(_, ids, _) => forall id :: id in ids ==> id in s.rows && IsPending(s.rows[id])
    case ClaimFailed(_, ids, before, _) =>
      forall id :: id in ids ==> id in s.rows && IsRetryable(s.rows[id], c.maxAttempts, before)
    case Reclaim(_, ids, before, _) =>
      before <= s.now - c.timeout && forall id :: id in ids ==> id in s.rows && IsStuck(s.rows[id], before)
    case Call(w, id, _) => (w, id) in s.items && s.items[(w, id)].phase == Working
    case Interrupt(w, id, _) => (w, id) in s.items && s.items[(w, id)].phase == Working && s.items[(w, id)].made > 0
    case RecordSuccess(w, id, _) => (w, id) in s.items && s.items[(w, id)].phase == Accepted
    case RecordFailure(w, id, _) => (w, id) in s.items && s.items[(w, id)].phase.GaveUp?
    case Drop(w, id) => (w, id) in s.items
    case Tick(time) => time >= s.now
  }

  function NewClaims(ledger: map<Id, seq<nat>>, ids: set<Id>): map<Id, seq<nat>> {
    map id | id in ledger :: if id in ids then ledger[id] + [0] else ledger[id]
  }

  /** The batch after a claim: a worker that already holds an event keeps the copy it has. */
  function NewItems(s: State, w: Worker, ids: set<Id>): map<(Worker, Id), Item> {
    (map id | id in ids && id in s.ledger :: (w, id) := Item(|s.ledger[id]|, s.now, 0, Working)) + s.items
  }

  /** The ids are claimed and their rows become `rows`; only `handed` reach the worker. */
  function Claim(s: State, rows: Table, ids: set<Id>, handed: set<Id>, w: Worker): State {
    s.(rows := rows, ledger := NewClaims(s.ledger, ids), items := NewItems(s, w, handed))
  }

  function AfterReply(c: Limits, item: Item, reply: Reply): Item {
    item.(made := item.made + 1,
          phase := if reply == Ok then Accepted
                   else if reply == NonRetryable then GaveUp(true)
                   else if item.made + 1 >= c.maxCalls then GaveUp(false)
                   else Working)
  }

  function CountCall(ledger: map<Id, seq<nat>>, id: Id, ticket: nat): map<Id, seq<nat>> {
    if id in ledger && ticket < |ledger[id]| then ledger[id := ledger[id][ticket := ledger[id][ticket] + 1]] else ledger
  }

  function CountSent(sent: map<Id, nat>, id: Id): map<Id, nat> {
    if id in sent then sent[id := sent[id] + 1] else sent
  }

  /** A state update reaches the table only if the row is still in PROCESSING. */
  function Record(s: State, w: Worker, id: Id, arrives: bool, row: Row -> Row): State {
    var rows := if arrives && id in s.rows && s.rows[id].status == Processing
                then s.rows[id := row(s.rows[id])] else s.rows;
    s.(rows := rows, items := s.items - {(w, id)})
  }

  function Apply(c: Limits, s: State, a: Action): State
    requires Enabled(c, s, a)
  {
    match a
    case Create(id, eventType) =>
      s.(rows := s.rows[id := Row(eventType, Pending, 0, s.now)], ledger := s.ledger[id := []], sent := s.sent[id := 0])
    case ClaimPending(w, ids, received) =>
      Claim(s, Update(s.rows, ids, row => Claimed(row, s.now)), ids, if received then ids else {}, w)
    case ClaimFailed(w, ids, _, received) =>
      Claim(s, Update(s.rows, ids, row => Claimed(row, s.now)), ids, if received then ids else {}, w)
    case Reclaim(w, ids, _, received) =>
      var retried := set id | id in ids && s.rows[id].attempts + 1 < c.maxAttempts;
      Claim(s, Update(s.rows, ids, row => Reclaimed(row, c.maxAttempts, s.now)),
            retried, if received then retried else {}, w)
    case Call(w, id, reply) =>
      var item := s.items[(w, id)];
      s.(items := s.items[(w, id) := AfterReply(c, item, reply)],
         ledger := CountCall(s.ledger, id, item.ticket),
         sent := if reply == Ok then CountSent(s.sent, id) else s.sent)
    case Interrupt(w, id, nonRetryable) =>
      s.(items := s.items[(w, id) := s.items[(w, id)].(phase := GaveUp(nonRetryable))])
    case RecordSuccess(w, id, arrives) => Record(s, w, id, arrives, row => Delivered(row, s.now))
    case RecordFailure(w, id, arrives) =>
      if s.items[(w, id)].phase.nonRetryable then Record(s, w, id, arrives, row => Rejected(row, s.now))
      else Record(s, w, id, arrives, row => Refused(row, c.maxAttempts, s.now))
    case Drop(w, id) => s.(items := s.items - {(w, id)})
    case Tick(time) => s.(now := time)
  }

  /** Consecutive states: the state before each action and the last one. */
  ghost predicate IsPath(c: Limits, run: seq<State>, acts: seq<Action>) {
    && |run| == |acts| + 1
    && forall i :: 0 <= i < |acts| ==> Enabled(c, run[i], acts[i]) && run[i + 1] == Apply(c, run[i], acts[i])
  }

  /** A path from the empty table. */
  ghost predicate IsRun(c: Limits, run: seq<State>, acts: seq<Action>) {
    IsPath(c, run, acts) && run[0] == INITIAL
  }

  // ---------- what happened in a run ----------

  function Bit(b: bool): nat { if b then 1 else 0 }

  /** The action hands the event to a worker, or would if its reply arrived. */
  predicate Grants(c: Limits, s: State, a: Action, id: Id) {
    match a
    case ClaimPending(_, ids, _) => id in ids
    case ClaimFailed(_, ids, _, _) => id in ids
    case Reclaim(_, ids, _, _) => id in ids && id in s.rows && s.rows[id].attempts + 1 < c.maxAttempts
    case _ => false
  }

  /** How often the first n actions claimed the event. */
  function Claims(c: Limits, run: seq<State>, acts: seq<Action>, n: nat, id: Id): nat
    requires n <= |acts| < |run|
  {
    if n == 0 then 0 else Claims(c, run, acts, n - 1, id) + Bit(Grants(c, run[n - 1], acts[n - 1], id))
  }

  predicate Calls(a: Action, id: Id) { a.Call? && a.id == id }

  predicate Delivers(a: Action, id: Id) { Calls(a, id) && a.reply == Ok }

  /** How often the first n actions called the handler with the event. */
  function HandlerCalls(acts: seq<Action>, n: nat, id: Id): nat
    requires n <= |acts|
  {
    if n == 0 then 0 else HandlerCalls(acts, n - 1, id) + Bit(Calls(acts[n - 1], id))
  }

  /** How many of these calls succeeded. */
  function Deliveries(acts: seq<Action>, n: nat, id: Id): nat
    requires n <= |acts|
  {
    if n == 0 then 0 else Deliveries(acts, n - 1, id) + Bit(Delivers(acts[n - 1], id))
  }

  // ---------- attempts and handler calls ----------

  /** How the attempts of a row relate to the number of times it was claimed. */
  predicate RowInv(c: Limits, r: Row, claims: nat) {
    match r.status
    case Pending => r.attempts == 0 && claims == 0
    case Processing => claims == r.attempts + 1 && r.attempts < c.maxAttempts
    case Failed => claims == r.attempts < c.maxAttempts
    case Published => claims == r.attempts + 1 && r.attempts < c.maxAttempts
    case Invalid => claims <= c.maxAttempts
  }

  ghost predicate RowsInv(c: Limits, s: State) {
    && s.rows.Keys == s.ledger.Keys == s.sent.Keys
    && (forall id :: id in s.rows ==> RowInv(c, s.rows[id], |s.ledger[id]|))
    && (forall id :: id in s.rows && s.rows[id].status == Published ==> s.sent[id] >= 1)
    && (forall id, t :: id in s.ledger && 0 <= t < |s.ledger[id]| ==> s.ledger[id][t] <= c.maxCalls)
  }

  ghost predicate ItemInv(c: Limits, s: State, w: Worker, id: Id, item: Item) {
    && id in s.ledger && id in s.sent && item.ticket < |s.ledger[id]| && s.ledger[id][item.ticket] == item.made
    && (item.phase == Working ==> item.made < c.maxCalls)
    && (item.phase == Accepted ==> s.sent[id] >= 1)
  }

  ghost predicate ItemsInv(c: Limits, s: State) {
    && (forall k :: k in s.items ==> ItemInv(c, s, k.0, k.1, s.items[k]))
    && (forall k, l :: k in s.items && l in s.items && k != l && k.1 == l.1 ==> s.items[k].ticket != s.items[l].ticket)
  }

  ghost predicate Inv(c: Limits, s: State) { RowsInv(c, s) && ItemsInv(c, s) }

  lemma ClaimKeepsRows(c: Limits, s: State, ids: set<Id>, claimed: set<Id>, handed: set<Id>,
                       w: Worker, change: Row -> Row)
    requires ValidLimits(c) && Inv(c, s) && handed <= claimed <= ids <= s.rows.Keys
    requires forall id :: id in ids ==>
               RowInv(c, change(s.rows[id]), |s.ledger[id]| + if id in claimed then 1 else 0)
               && change(s.rows[id]).status != Published
    ensures RowsInv(c, Claim(s, Update(s.rows, ids, change), claimed, handed, w))
  {
  }

  lemma ClaimKeepsItem(c: Limits, s: State, rows: Table, claimed: set<Id>, handed: set<Id>, w: Worker, k: (Worker, Id))
    requires ValidLimits(c) && Inv(c, s) && handed <= claimed <= s.rows.Keys
             && k in Claim(s, rows, claimed, handed, w).items
    ensures var s' := Claim(s, rows, claimed, handed, w);
            && ItemInv(c, s', k.0, k.1, s'.items[k])
            && (if k in s.items then s'.items[k] == s.items[k] && s'.items[k].ticket < |s.ledger[k.1]|
                else k.0 == w && k.1 in s.ledger && s'.items[k].ticket == |s.ledger[k.1]|)
  {
    if k in s.items {
      assert ItemInv(c, s, k.0, k.1, s.items[k]);
    }
  }

  lemma ClaimKeepsItems(c: Limits, s: State, rows: Table, claimed: set<Id>, handed: set<Id>, w: Worker)
    requires ValidLimits(c) && Inv(c, s) && handed <= claimed <= s.rows.Keys
    ensures ItemsInv(c, Claim(s, rows, claimed, handed, w))
  {
    var s' := Claim(s, rows, claimed, handed, w);
    forall k | k in s'.items ensures ItemInv(c, s', k.0, k.1, s'.items[k]) {
      ClaimKeepsItem(c, s, rows, claimed, handed, w, k);
    }
    forall k, l | k in s'.items && l in s'.items && k != l && k.1 == l.1
      ensures s'.items[k].ticket != s'.items[l].ticket
    {
      ClaimKeepsItem(c, s, rows, claimed, handed, w, k);
      ClaimKeepsItem(c, s, rows, claimed, handed, w, l);
    }
  }

  lemma ClaimKeepsInv(c: Limits, s: State, ids: set<Id>, claimed: set<Id>, received: bool,
                      w: Worker, change: Row -> Row)
    requires ValidLimits(c) && Inv(c, s) && claimed <= ids <= s.rows.Keys
    requires forall id :: id in ids ==>
               RowInv(c, change(s.rows[id]), |s.ledger[id]| + if id in claimed then 1 else 0)
               && change(s.rows[id]).status != Published
    ensures Inv(c, Claim(s, Update(s.rows, ids, change), claimed, if received then claimed else {}, w))
  {
    var handed := if received then claimed else {};
    ClaimKeepsRows(c, s, ids, claimed, handed, w, change);
    ClaimKeepsItems(c, s, Update(s.rows, ids, change), claimed, handed, w);
  }

  lemma CallKeepsRows(c: Limits, s: State, w: Worker, id: Id, reply: Reply)
    requires ValidLimits(c) && Inv(c, s) && Enabled(c, s, Call(w, id, reply))
    ensures RowsInv(c, Apply(c, s, Call(w, id, reply)))
  {
    assert ItemInv(c, s, w, id, s.items[(w, id)]);
  }

  lemma CallKeepsItem(c: Limits, s: State, w: Worker, id: Id, reply: Reply, k: (Worker, Id))
    requires ValidLimits(c) && Inv(c, s) && Enabled(c, s, Call(w, id, reply)) && k in s.items
    ensures var s' := Apply(c, s, Call(w, id, reply)); ItemInv(c, s', k.0, k.1, s'.items[k])
  {
    assert ItemInv(c, s, w, id, s.items[(w, id)]);
    assert ItemInv(c, s, k.0, k.1, s.items[k]);
  }

  lemma CallKeepsInv(c: Limits, s: State, w: Worker, id: Id, reply: Reply)
    requires ValidLimits(c) && Inv(c, s) && Enabled(c, s, Call(w, id, reply))
    ensures Inv(c, Apply(c, s, Call(w, id, reply)))
  {
    var s' := Apply(c, s, Call(w, id, reply));
    CallKeepsRows(c, s, w, id, reply);
    forall k | k in s'.items
      ensures ItemInv(c, s', k.0, k.1, s'.items[k])
    {
      CallKeepsItem(c, s, w, id, reply, k);
    }
  }

  lemma RecordKeepsInv(c: Limits, s: State, w: Worker, id: Id, arrives: bool, row: Row -> Row)
    requires ValidLimits(c) && Inv(c, s) && (w, id) in s.items
    requires id in s.rows && s.rows[id].status == Processing ==>
               RowInv(c, row(s.rows[id]), |s.ledger[id]|) && (row(s.rows[id]).status == Published ==> s.sent[id] >= 1)
    ensures Inv(c, Record(s, w, id, arrives, row))
  {
    var s' := Record(s, w, id, arrives, row);
    forall k | k in s'.items
      ensures ItemInv(c, s', k.0, k.1, s'.items[k])
    {
      assert ItemInv(c, s, k.0, k.1, s.items[k]);
    }
  }

  lemma InterruptKeepsInv(c: Limits, s: State, w: Worker, id: Id, nonRetryable: bool)
    requires ValidLimits(c) && Inv(c, s) && Enabled(c, s, Interrupt(w, id, nonRetryable))
    ensures Inv(c, s.(items := s.items[(w, id) := s.items[(w, id)].(phase := GaveUp(nonRetryable))]))
  {
    var s' := s.(items := s.items[(w, id) := s.items[(w, id)].(phase := GaveUp(nonRetryable))]);
    forall k | k in s'.items
      ensures ItemInv(c, s', k.0, k.1, s'.items[k])
    {
      assert ItemInv(c, s, k.0, k.1, s.items[k]);
    }
  }

  lemma CreateKeepsInv(c: Limits, s: State, id: Id, eventType: string)
    requires ValidLimits(c) && Inv(c, s) && Enabled(c, s, Create(id, eventType))
    ensures Inv(c, Apply(c, s, Create(id, eventType)))
  {
    var s' := Apply(c, s, Create(id, eventType));
    forall k | k in s'.items
      ensures ItemInv(c, s', k.0, k.1, s'.items[k])
    {
      assert ItemInv(c, s, k.0, k.1, s.items[k]);
    }
  }

  lemma DropKeepsInv(c: Limits, s: State, w: Worker, id: Id)
    requires ValidLimits(c) && Inv(c, s)
    ensures Inv(c, s.(items := s.items - {(w, id)}))
  {
    forall k | k in s.items - {(w, id)}
      ensures ItemInv(c, s, k.0, k.1, s.items[k])
    {
    }
  }

  lemma TickKeepsInv(c: Limits, s: State, time: int)
    requires ValidLimits(c) && Inv(c, s)
    ensures Inv(c, s.(now := time))
  {
    forall k | k in s.items
      ensures ItemInv(c, s.(now := time), k.0, k.1, s.items[k])
    {
      assert ItemInv(c, s, k.0, k.1, s.items[k]);
    }
  }

  lemma ClaimStepKeepsInv(c: Limits, s: State, a: Action)
    requires ValidLimits(c) && Inv(c, s) && Enabled(c, s, a) && (a.ClaimPending? || a.ClaimFailed? || a.Reclaim?)
    ensures Inv(c, Apply(c, s, a))
  {
    match a
    case ClaimPending(w, ids, received) =>
      ClaimKeepsInv(c, s, ids, ids, received, w, row => Claimed(row, s.now));
    case ClaimFailed(w, ids, before, received) =>
      ClaimKeepsInv(c, s, ids, ids, received, w, row => Claimed(row, s.now));
    case Reclaim(w, ids, before, received) =>
      var retried := set id | id in ids && s.rows[id].attempts + 1 < c.maxAttempts;
      ClaimKeepsInv(c, s, ids, retried, received, w, row => Reclaimed(row, c.maxAttempts, s.now));
  }

  lemma RecordStepKeepsInv(c: Limits, s: State, a: Action)
    requires ValidLimits(c) && Inv(c, s) && Enabled(c, s, a) && (a.RecordSuccess? || a.RecordFailure?)
    ensures Inv(c, Apply(c, s, a))
  {
    match a
    case RecordSuccess(w, id, arrives) =>
      assert ItemInv(c, s, w, id, s.items[(w, id)]);
      RecordKeepsInv(c, s, w, id, arrives, row => Delivered(row, s.now));
    case RecordFailure(w, id, arrives) =>
      if s.items[(w, id)].phase.nonRetryable {
        RecordKeepsInv(c, s, w, id, arrives, row => Rejected(row, s.now));
      } else {
        RecordKeepsInv(c, s, w, id, arrives, row => Refused(row, c.maxAttempts, s.now));
      }
  }

  /** Every step keeps the invariant. */
  lemma StepKeepsInv(c: Limits, s: State, a: Action)
    requires ValidLimits(c) && Inv(c, s) && Enabled(c, s, a)
    ensures Inv(c, Apply(c, s, a))
  {
    match a
    case Create(id, eventType) => CreateKeepsInv(c, s, id, eventType);
    case Call(w, id, reply) => CallKeepsInv(c, s, w, id, reply);
    case Interrupt(w, id, nonRetryable) => InterruptKeepsInv(c, s, w, id, nonRetryable);
    case RecordSuccess(_, _, _) => RecordStepKeepsInv(c, s, a);
    case RecordFailure(_, _, _) => RecordStepKeepsInv(c, s, a);
    case Drop(w, id) => DropKeepsInv(c, s, w, id);
    case Tick(time) => TickKeepsInv(c, s, time);
    case _ => ClaimStepKeepsInv(c, s, a);
  }

  lemma {:induction false} RunKeepsInv(c: Limits, run: seq<State>, acts: seq<Action>, n: nat)
    requires ValidLimits(c) && IsRun(c, run, acts) && n < |run|
    ensures Inv(c, run[n])
  {
    if n > 0 {
      RunKeepsInv(c, run, acts, n - 1);
      StepKeepsInv(c, run[n - 1], acts[n - 1]);
    }
  }

  // ---------- the ledger counts the actions ----------

  function Sum(xs: seq<nat>): nat {
    if xs == [] then 0 else Sum(xs[..|xs| - 1]) + xs[|xs| - 1]
  }

  lemma {:induction false} SumBound(xs: seq<nat>, bound: nat)
    requires forall i :: 0 <= i < |xs| ==> xs[i] <= bound
    ensures Sum(xs) <= |xs| * bound
  {
    if xs != [] {
      SumBound(xs[..|xs| - 1], bound);
    }
  }

  lemma SumSnoc(xs: seq<nat>, x: nat)
    ensures Sum(xs + [x]) == Sum(xs) + x
  {
    assert (xs + [x])[..|xs|] == xs;
  }

  lemma {:induction false} SumBump(xs: seq<nat>, i: nat)
    requires i < |xs|
    ensures Sum(xs[i := xs[i] + 1]) == Sum(xs) + 1
  {
    var rest := xs[..|xs| - 1];
    if i < |rest| {
      SumBump(rest, i);
      assert xs[i := xs[i] + 1][..|rest|] == rest[i := rest[i] + 1];
    } else {
      assert xs[i := xs[i] + 1][..|rest|] == rest;
    }
  }

  lemma ProductBound(n: nat, m: nat, k: nat)
    requires n <= m
    ensures n * k <= m * k
  {
  }

  /** The books of one event in a state. */
  ghost predicate Books(s: State, id: Id, claims: nat, calls: nat, deliveries: nat) {
    if id in s.rows then
      id in s.ledger && id in s.sent && |s.ledger[id]| == claims
      && Sum(s.ledger[id]) == calls && s.sent[id] == deliveries
    else claims == 0 && calls == 0 && deliveries == 0
  }

  lemma ClaimKeepsBooks(c: Limits, s: State, a: Action, id: Id, claims: nat, calls: nat, deliveries: nat)
    requires ValidLimits(c) && Inv(c, s) && Enabled(c, s, a) && Books(s, id, claims, calls, deliveries)
    requires a.ClaimPending? || a.ClaimFailed? || a.Reclaim?
    ensures Books(Apply(c, s, a), id, claims + Bit(Grants(c, s, a, id)), calls, deliveries)
  {
    if id in s.rows {
      SumSnoc(s.ledger[id], 0);
    }
  }

  /** A handler call adds one to the entry of its claim. */
  lemma CallIsCounted(c: Limits, s: State, a: Action)
    requires Inv(c, s) && Enabled(c, s, a) && a.Call?
    ensures var s', ticket := Apply(c, s, a), s.items[(a.worker, a.id)].ticket;
            && s'.rows == s.rows && a.id in s.ledger && a.id in s.sent && ticket < |s.ledger[a.id]|
            && s'.ledger == s.ledger[a.id := s.ledger[a.id][ticket := s.ledger[a.id][ticket] + 1]]
            && s'.sent == if a.reply == Ok then s.sent[a.id := s.sent[a.id] + 1] else s.sent
  {
    assert ItemInv(c, s, a.worker, a.id, s.items[(a.worker, a.id)]);
  }

  lemma CountedKeepsBooks(s: State, s': State, id: Id, called: Id, ticket: nat, delivered: bool,
                          claims: nat, calls: nat, deliveries: nat)
    requires Books(s, id, claims, calls, deliveries) && called in s.rows && s'.rows == s.rows
    requires called in s.ledger && called in s.sent && ticket < |s.ledger[called]|
    requires s'.ledger == s.ledger[called := s.ledger[called][ticket := s.ledger[called][ticket] + 1]]
    requires s'.sent == if delivered then s.sent[called := s.sent[called] + 1] else s.sent
    ensures Books(s', id, claims, calls + Bit(called == id), deliveries + Bit(called == id && delivered))
  {
    SumBump(s.ledger[called], ticket);
  }

  lemma CallKeepsBooks(c: Limits, s: State, a: Action, id: Id, claims: nat, calls: nat, deliveries: nat)
    requires ValidLimits(c) && Inv(c, s) && Enabled(c, s, a) && a.Call? && Books(s, id, claims, calls, deliveries)
    ensures Books(Apply(c, s, a), id, claims, calls + Bit(Calls(a, id)), deliveries + Bit(Delivers(a, id)))
  {
    CallIsCounted(c, s, a);
    CountedKeepsBooks(s, Apply(c, s, a), id, a.id, s.items[(a.worker, a.id)].ticket, a.reply == Ok,
                      claims, calls, deliveries);
  }

  lemma StepKeepsBooks(c: Limits, s: State, a: Action, id: Id, claims: nat, calls: nat, deliveries: nat)
    requires ValidLimits(c) && Inv(c, s) && Enabled(c, s, a) && Books(s, id, claims, calls, deliveries)
    ensures Books(Apply(c, s, a), id, claims + Bit(Grants(c, s, a, id)),
                  calls + Bit(Calls(a, id)), deliveries + Bit(Delivers(a, id)))
  {
    if a.ClaimPending? || a.ClaimFailed? || a.Reclaim? {
      ClaimKeepsBooks(c, s, a, id, claims, calls, deliveries);
    } else if a.Call? {
      CallKeepsBooks(c, s, a, id, claims, calls, deliveries);
    }
  }

  /** The ledger counts what happened: its entries are the claims, their sum the handler calls, and
      sent the successful ones. */
  lemma {:induction false} LedgerCountsActions(c: Limits, run: seq<State>, acts: seq<Action>, n: nat, id: Id)
    requires ValidLimits(c) && IsRun(c, run, acts) && n < |run|
    ensures Books(run[n], id, Claims(c, run, acts, n, id), HandlerCalls(acts, n, id), Deliveries(acts, n, id))
  {
    if n > 0 {
      LedgerCountsActions(c, run, acts, n - 1, id);
      RunKeepsInv(c, run, acts, n - 1);
      StepKeepsBooks(c, run[n - 1], acts[n - 1], id,
                     Claims(c, run, acts, n - 1, id), HandlerCalls(acts, n - 1, id), Deliveries(acts, n - 1, id));
    }
  }

  /** However cycles interleave, stall, crash or lose updates, an event is claimed at most maxAttempts
      times in a run, and its handler is called at most maxCalls times per claim. */
  lemma AttemptsAreBounded(c: Limits, run: seq<State>, acts: seq<Action>, n: nat, id: Id)
    requires ValidLimits(c) && IsRun(c, run, acts) && n < |run|
    ensures Claims(c, run, acts, n, id) <= c.maxAttempts
    ensures HandlerCalls(acts, n, id) <= Claims(c, run, acts, n, id) * c.maxCalls <= c.maxAttempts * c.maxCalls
    ensures id in run[n].rows && !Terminal(run[n].rows[id].status) ==> run[n].rows[id].attempts < c.maxAttempts
  {
    RunKeepsInv(c, run, acts, n);
    LedgerCountsActions(c, run, acts, n, id);
    if id in run[n].rows {
      SumBound(run[n].ledger[id], c.maxCalls);
      ProductBound(|run[n].ledger[id]|, c.maxAttempts, c.maxCalls);
    }
  }

  // ---------- the life cycle of rows ----------

  lemma StepIsLawful(c: Limits, s: State, a: Action)
    requires ValidLimits(c) && Enabled(c, s, a)
    ensures Lawful(s.rows, Apply(c, s, a).rows)
  {
  }

  ghost predicate LawfulHistory(tables: seq<Table>) {
    forall i :: 0 <= i < |tables| - 1 ==> Lawful(tables[i], tables[i + 1])
  }

  function Tables(run: seq<State>): seq<Table> { seq(|run|, i requires 0 <= i < |run| => run[i].rows) }

  lemma RunIsLawful(c: Limits, run: seq<State>, acts: seq<Action>)
    requires ValidLimits(c) && IsRun(c, run, acts)
    ensures LawfulHistory(Tables(run))
  {
    forall i | 0 <= i < |run| - 1
      ensures Lawful(run[i].rows, run[i + 1].rows)
    {
      StepIsLawful(c, run[i], acts[i]);
    }
  }

  lemma {:induction false} LawfulIsPermanent(tables: seq<Table>, i: nat, j: nat, id: Id)
    requires LawfulHistory(tables) && i <= j < |tables| && id in tables[i]
    ensures id in tables[j]
    ensures Terminal(tables[i][id].status) ==> tables[j][id] == tables[i][id]
    decreases j
  {
    if i < j {
      LawfulIsPermanent(tables, i, j - 1, id);
      assert Lawful(tables[j - 1], tables[j - 1 + 1]);
    }
  }

  /** No created event ever disappears, every change of a row follows the life cycle, and PUBLISHED
      and INVALID rows never change again. */
  lemma RowsArePermanent(c: Limits, run: seq<State>, acts: seq<Action>, i: nat, j: nat, id: Id)
    requires ValidLimits(c) && IsRun(c, run, acts) && i <= j < |run| && id in run[i].rows
    ensures id in run[j].rows
    ensures Terminal(run[i].rows[id].status) ==> run[j].rows[id] == run[i].rows[id]
    ensures j == i + 1 ==>
      run[j].rows[id] == run[i].rows[id] || CanTransitionTo(run[i].rows[id].status, run[j].rows[id].status)
  {
    RunIsLawful(c, run, acts);
    LawfulIsPermanent(Tables(run), i, j, id);
    assert j == i + 1 ==> Lawful(Tables(run)[i], Tables(run)[i + 1]);
  }

  /** A published row was delivered: some handler call for it had succeeded before. */
  lemma PublishedWasDelivered(c: Limits, run: seq<State>, acts: seq<Action>, n: nat, id: Id)
    requires ValidLimits(c) && IsRun(c, run, acts) && n < |run|
    requires id in run[n].rows && run[n].rows[id].status == Published
    ensures exists i :: 0 <= i < n && acts[i].Call? && acts[i].id == id && acts[i].reply == Ok
  {
    RunKeepsInv(c, run, acts, n);
    SentWasCalled(c, run, acts, n, id);
  }

  lemma {:induction false} SentWasCalled(c: Limits, run: seq<State>, acts: seq<Action>, n: nat, id: Id)
    requires ValidLimits(c) && IsRun(c, run, acts) && n < |run|
    requires id in run[n].sent && run[n].sent[id] >= 1
    ensures exists i :: 0 <= i < n && acts[i].Call? && acts[i].id == id && acts[i].reply == Ok
  {
    var a := acts[n - 1];
    if !(a.Call? && a.id == id && a.reply == Ok) {
      SentWasCalled(c, run, acts, n - 1, id);
    }
  }
}
