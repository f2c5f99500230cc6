/** The repository: transactions over the outbox table.  Which rows other transactions hold locked and
    whether the database fails are parameters; in which order a query returns rows is left open. */
module OutboxRepository {
  import opened OutboxTable
  import opened Sequences
  import opened Text

  datatype Error = LimitMustBePositive | MaxAttemptsMustBePositive | EventTypeRequired | StateConflict | DatabaseError

  datatype Result<+T> = Ok(value: T) | Err(error: Error)

  /** An event as it is held in memory: the row it was read from, kept in step with the table. */
  datatype Event = Event(id: Id, row: Row)

  function Ids(es: seq<Event>): (ids: seq<Id>)
    ensures |ids| == |es| && forall i :: 0 <= i < |es| ==> ids[i] == es[i].id
  {
    seq(|es|, i requires 0 <= i < |es| => es[i].id)
  }

  lemma IdsConcat(a: seq<Event>, b: seq<Event>)
    ensures Ids(a + b) == Ids(a) + Ids(b)
  {
  }

  /** The events a committed claim hands out: distinct rows that were eligible, as they are now. */
  ghost predicate HandsOut(es: seq<Event>, before: Table, after: Table, eligible: Row -> bool) {
    && Distinct(Ids(es))
    && forall i :: 0 <= i < |es| ==>
         es[i].id in before && eligible(before[es[i].id]) && es[i].id in after && es[i].row == after[es[i].id]
  }

  /** What a claim handed out: the row as it was when it was claimed, and as it became. */
  datatype Grant = Grant(id: Id, was: Row, now: Row)

  function GrantIds(gs: seq<Grant>): (ids: seq<Id>)
    ensures |ids| == |gs| && forall i :: 0 <= i < |gs| ==> ids[i] == gs[i].id
  {
    seq(|gs|, i requires 0 <= i < |gs| => gs[i].id)
  }

  ghost function GrantsOf(es: seq<Event>, before: Table): (gs: seq<Grant>)
    requires forall e :: e in es ==> e.id in before
    ensures |gs| == |es| && GrantIds(gs) == Ids(es)
    ensures forall i :: 0 <= i < |es| ==> gs[i] == Grant(es[i].id, before[es[i].id], es[i].row)
  {
    seq(|es|, i requires 0 <= i < |es| => Grant(es[i].id, before[es[i].id], es[i].row))
  }

  /** The events are now recorded among the grants. */
  ghost predicate Granted(es: seq<Event>, before: Table, earlier: seq<Grant>, grants: seq<Grant>) {
    (forall e :: e in es ==> e.id in before) && grants == earlier + GrantsOf(es, before)
  }

  // What the claims promise, field by field.

  /** A claim takes eligible rows that nobody has locked, and stops short of its limit only when there
      are no more of them. */
  ghost predicate Maximal(t: Table, ids: seq<Id>, limit: int, locked: set<Id>, eligible: Row -> bool) {
    && Distinct(ids) && |ids| <= limit
    && (forall id :: id in ids ==> id in t && id !in locked && eligible(t[id]))
    && (|ids| < limit ==> forall id :: id in t && id !in locked && eligible(t[id]) ==> id in ids)
  }

  /** Exactly these rows went to PROCESSING, with type and attempts kept. */
  ghost predicate Takes(t: Table, u: Table, ids: seq<Id>, now: int) {
    && u.Keys == t.Keys
    && forall id :: id in t ==>
         u[id] == if id in ids then Row(t[id].eventType, Processing, t[id].attempts, now) else t[id]
  }

  /** Exactly these rows count one more attempt; they stay in PROCESSING unless it was the last. */
  ghost predicate Retakes(t: Table, u: Table, ids: seq<Id>, maxAttempts: int, now: int) {
    && u.Keys == t.Keys
    && forall id :: id in t ==>
         u[id] == if id in ids then
                    Row(t[id].eventType, if t[id].attempts + 1 >= maxAttempts then Invalid else Processing,
                        t[id].attempts + 1, now)
                  else t[id]
  }

  /** The events are copies of the rows. */
  ghost predicate Copies(es: seq<Event>, t: Table) { forall e :: e in es ==> e.id in t && e.row == t[e.id] }

  lemma ClaimedTakes(t: Table, ids: seq<Id>, now: int)
    ensures Takes(t, Update(t, SetOf(ids), row => Claimed(row, now)), ids, now)
  {
  }

  lemma ReclaimedRetakes(t: Table, ids: seq<Id>, maxAttempts: int, now: int)
    ensures Retakes(t, Update(t, SetOf(ids), row => Reclaimed(row, maxAttempts, now)), ids, maxAttempts, now)
  {
  }

  /** SELECT ... LIMIT n FOR UPDATE SKIP LOCKED: eligible rows that are not locked, in some order, as
      many as there are within the limit. */
  method Select(t: Table, eligible: Row -> bool, limit: int, locked: set<Id>) returns (es: seq<Event>)
    requires limit > 0
    ensures HandsOut(es, t, t, eligible) && Maximal(t, Ids(es), limit, locked, eligible)
  {
    es := [];
    var rest := set id | id in t && id !in locked && eligible(t[id]);
    while |es| < limit && rest != {}
      invariant |es| <= limit && HandsOut(es, t, t, eligible)
      invariant forall id :: id in rest ==> id in t && id !in locked && eligible(t[id]) && id !in Ids(es)
      invariant forall id :: id in t && id !in locked && eligible(t[id]) ==> id in rest || id in Ids(es)
      invariant forall id :: id in Ids(es) ==> id in t && id !in locked && eligible(t[id])
      decreases rest
    {
      var id :| id in rest;
      rest := rest - {id};
      IdsConcat(es, [Event(id, t[id])]);
      assert Ids([Event(id, t[id])]) == [id];
      es := es + [Event(id, t[id])];
    }
  }

  /** The stuck events that may be tried again, and the ids of those that may not. */
  method SplitStuck(events: seq<Event>, maxAttempts: int) returns (retry: seq<Event>, exhausted: seq<Id>)
    requires Distinct(Ids(events))
    ensures Distinct(Ids(retry)) && Distinct(exhausted) && |retry| + |exhausted| == |events|
    ensures forall e :: e in retry <==> e in events && e.row.attempts + 1 < maxAttempts
    ensures forall id :: id in exhausted <==> exists e :: e in events && e.id == id && e.row.attempts + 1 >= maxAttempts
  {
    retry, exhausted := [], [];
    for i := 0 to |events|
      invariant Distinct(Ids(retry)) && Distinct(exhausted) && |retry| + |exhausted| == i
      invariant forall e :: e in retry <==> e in events[..i] && e.row.attempts + 1 < maxAttempts
      invariant forall id :: id in exhausted <==>
        exists e :: e in events[..i] && e.id == id && e.row.attempts + 1 >= maxAttempts
    {
      assert events[..i + 1] == events[..i] + [events[i]];
      assert forall e :: e in events[..i] ==> e.id != events[i].id by {
        assert forall k :: 0 <= k < i ==> Ids(events)[k] != Ids(events)[i];
      }
      assert events[i].id !in exhausted;
      if events[i].row.attempts + 1 >= maxAttempts {
        exhausted := exhausted + [events[i].id];
      } else {
        assert forall k :: 0 <= k < |retry| ==> retry[k] in retry;
        retry := retry + [events[i]];
      }
    }
    assert events[..|events|] == events;
  }

  /** The in-memory copies of the given events after their rows were changed. */
  method ApplyState(events: seq<Event>, change: Row -> Row) returns (es: seq<Event>)
    ensures |es| == |events| && Ids(es) == Ids(events)
    ensures forall i :: 0 <= i < |events| ==> es[i] == Event(events[i].id, change(events[i].row))
  {
    es := [];
    for i := 0 to |events|
      invariant |es| == i
      invariant forall k :: 0 <= k < i ==> es[k] == Event(events[k].id, change(events[k].row))
    {
      es := es + [Event(events[i].id, change(events[i].row))];
    }
  }

  /** Marking the two halves of the stuck rows one after the other reclaims all of them. */
  lemma ReclaimSplits(t: Table, stuck: set<Id>, retry: set<Id>, exhausted: set<Id>, maxAttempts: int, now: int)
    requires retry + exhausted == stuck && stuck <= t.Keys
    requires forall id :: id in retry ==> t[id].attempts + 1 < maxAttempts
    requires forall id :: id in exhausted ==> t[id].attempts + 1 >= maxAttempts
    ensures Update(Update(t, retry, row => Retried(row, now)), exhausted, row => Exhausted(row, now))
         == Update(t, stuck, row => Reclaimed(row, maxAttempts, now))
  {
  }

  lemma SplitCovers(t: Table, events: seq<Event>, retry: seq<Event>, exhausted: seq<Id>, maxAttempts: int)
    requires forall e :: e in events ==> e.id in t && e.row == t[e.id]
    requires forall e :: e in retry <==> e in events && e.row.attempts + 1 < maxAttempts
    requires forall id :: id in exhausted <==>
      exists e :: e in events && e.id == id && e.row.attempts + 1 >= maxAttempts
    ensures forall id :: id in Ids(retry) <==> id in Ids(events) && t[id].attempts + 1 < maxAttempts
    ensures forall id :: id in exhausted <==> id in Ids(events) && t[id].attempts + 1 >= maxAttempts
  {
    IdsMembers(retry);
    IdsMembers(events);
  }

  lemma IdsMembers(es: seq<Event>)
    ensures forall id :: id in Ids(es) <==> exists e :: e in es && e.id == id
  {
    forall id | id in Ids(es)
      ensures exists e :: e in es && e.id == id
    {
      var i :| 0 <= i < |es| && Ids(es)[i] == id;
      assert es[i] in es;
    }
    forall e | e in es
      ensures e.id in Ids(es)
    {
      var i :| 0 <= i < |es| && es[i] == e;
      assert Ids(es)[i] == e.id;
    }
  }

  class Repository {
    var rows: Table
    /** The rows that other transactions hold locked. */
    var locked: set<Id>
    /** What this caller was handed, and the events whose delivery it recorded. */
    ghost var grants: seq<Grant>
    ghost var published: seq<Id>

    constructor ()
      ensures rows == map[] && locked == {} && grants == [] && published == []
    {
      rows, locked := map[], {};
      grants, published := [], [];
    }

    method Create(id: Id, eventType: string, now: int, fault: bool) returns (r: Result<()>)
      modifies this`rows
      ensures r.Ok? <==> !Blank(eventType) && !fault && id !in old(rows)
      ensures r.Err? ==> r.error == (if Blank(eventType) then EventTypeRequired else DatabaseError)
      ensures rows == if r.Ok? then old(rows)[id := Row(Trim(eventType), Pending, 0, now)] else old(rows)
    {
      if Trim(eventType) == "" {
        return Err(EventTypeRequired);
      }
      if fault || id in rows {
        return Err(DatabaseError);
      }
      rows := rows[id := Row(Trim(eventType), Pending, 0, now)];
      return Ok(());
    }

    /** UPDATE ... WHERE id = ANY(ids) AND status = from, rolled back unless it touched every id. */
    method UpdateWhere(ids: seq<Id>, from: Status, change: Row -> Row) returns (ok: bool)
      requires Distinct(ids)
      modifies this`rows
      ensures ok <==> forall id :: id in ids ==> id in old(rows) && old(rows)[id].status == from
      ensures ok ==> rows == Update(old(rows), SetOf(ids), change)
      ensures !ok ==> rows == old(rows)
    {
      var t, affected := rows, 0;
      for i := 0 to |ids|
        invariant 0 <= affected <= i && rows == old(rows) && t.Keys == rows.Keys
        invariant forall id :: id in rows ==>
                    t[id] == if id in ids[..i] && rows[id].status == from then change(rows[id]) else rows[id]
        invariant affected == i <==> forall id :: id in ids[..i] ==> id in rows && rows[id].status == from
      {
        assert ids[i] !in ids[..i];
        if ids[i] in t && t[ids[i]].status == from {
          t := t[ids[i] := change(t[ids[i]])];
          affected := affected + 1;
        }
        assert ids[..i + 1] == ids[..i] + [ids[i]];
      }
      assert ids[..|ids|] == ids;
      ok := affected == |ids|;
      if ok {
        rows := t;
      }
    }

    /** Claim pending events: PENDING -> PROCESSING. */
    method ListPending(limit: int, now: int, fault: bool) returns (r: Result<seq<Event>>)
      modifies this`rows, this`grants
      ensures r.Ok? <==> limit > 0 && !fault
      ensures r.Err? ==> r.error == (if limit <= 0 then LimitMustBePositive else DatabaseError)
      ensures r.Err? ==> rows == old(rows) && grants == old(grants)
      ensures r.Ok? ==>
                && Maximal(old(rows), Ids(r.value), limit, locked, (row: Row) => row.status == Pending)
                && Takes(old(rows), rows, Ids(r.value), now) && Copies(r.value, rows)
                && Granted(r.value, old(rows), old(grants), grants)
    {
      r := ClaimWhere(limit, IsPending, Pending, now, fault);
    }

    /** Claim pending events of one type. */
    method ListPendingByType(eventType: string, limit: int, now: int, fault: bool) returns (r: Result<seq<Event>>)
      modifies this`rows, this`grants
      ensures r.Ok? <==> limit > 0 && !Blank(eventType) && !fault
      ensures r.Err? ==> r.error == (if limit <= 0 then LimitMustBePositive
                                     else if Blank(eventType) then EventTypeRequired else DatabaseError)
      ensures r.Err? ==> rows == old(rows) && grants == old(grants)
      ensures r.Ok? ==>
                && Maximal(old(rows), Ids(r.value), limit, locked,
                           (row: Row) => row.status == Pending && row.eventType == Trim(eventType))
                && Takes(old(rows), rows, Ids(r.value), now) && Copies(r.value, rows)
                && Granted(r.value, old(rows), old(grants), grants)
    {
      var wanted := Trim(eventType);
      if limit > 0 && wanted == "" {
        return Err(EventTypeRequired);
      }
      r := ClaimWhere(limit, row => IsPending(row) && row.eventType == wanted, Pending, now, fault);
    }

    /** Claim failed events for another attempt: FAILED -> PROCESSING. */
    method ResetForRetry(limit: int, failedBefore: int, maxAttempts: int, now: int, fault: bool)
      returns (r: Result<seq<Event>>)
      modifies this`rows, this`grants
      ensures r.Ok? <==> limit > 0 && maxAttempts > 0 && !fault
      ensures r.Err? ==> r.error == (if limit <= 0 then LimitMustBePositive
                                     else if maxAttempts <= 0 then MaxAttemptsMustBePositive else DatabaseError)
      ensures r.Err? ==> rows == old(rows) && grants == old(grants)
      ensures r.Ok? ==>
                && Maximal(old(rows), Ids(r.value), limit, locked,
                           (row: Row) => row.status == Failed && row.attempts < maxAttempts
                                         && row.updatedAt <= failedBefore)
                && Takes(old(rows), rows, Ids(r.value), now) && Copies(r.value, rows)
                && Granted(r.value, old(rows), old(grants), grants)
    {
      if limit > 0 && maxAttempts <= 0 {
        return Err(MaxAttemptsMustBePositive);
      }
      r := ClaimWhere(limit, row => IsRetryable(row, maxAttempts, failedBefore), Failed, now, fault);
    }

    /** The shape the three claims share: select, mark as processing, mirror the change in memory. */
    method ClaimWhere(limit: int, eligible: Row -> bool, from: Status, now: int, fault: bool)
      returns (r: Result<seq<Event>>)
      requires forall row :: eligible(row) ==> row.status == from
      modifies this`rows, this`grants
      ensures r.Ok? <==> limit > 0 && !fault
      ensures r.Err? ==> r.error == (if limit <= 0 then LimitMustBePositive else DatabaseError)
      ensures r.Err? ==> rows == old(rows) && grants == old(grants)
      ensures r.Ok? ==>
                && Maximal(old(rows), Ids(r.value), limit, locked, eligible)
                && Takes(old(rows), rows, Ids(r.value), now) && Copies(r.value, rows)
                && Granted(r.value, old(rows), old(grants), grants)
    {
      if limit <= 0 {
        return Err(LimitMustBePositive);
      }
      if fault {
        return Err(DatabaseError);
      }
      var events := Select(rows, eligible, limit, locked);
      var ids := Ids(events);
      var change := (row: Row) => Claimed(row, now);
      var ok := UpdateWhere(ids, from, change);
      assert ok;
      ClaimedTakes(old(rows), ids, now);
      var claimed := ApplyState(events, change);
      IdsMembers(claimed);
      grants := grants + GrantsOf(claimed, old(rows));
      return Ok(claimed);
    }

    /** Both halves of a reclaim, and the copies of the events that are tried again. */
    method ReclaimEvents(events: seq<Event>, before: int, maxAttempts: int, now: int) returns (reclaimed: seq<Event>)
      requires HandsOut(events, rows, rows, row => IsStuck(row, before))
      modifies this`rows
      ensures |reclaimed| <= |events|
      ensures rows == Update(old(rows), SetOf(Ids(events)), row => Reclaimed(row, maxAttempts, now))
      ensures HandsOut(reclaimed, old(rows), rows, row => IsStuck(row, before))
      ensures forall id :: id in Ids(reclaimed) <==> id in Ids(events) && old(rows)[id].attempts + 1 < maxAttempts
    {
      var retry, exhausted := SplitStuck(events, maxAttempts);
      SplitCovers(rows, events, retry, exhausted, maxAttempts);
      ReclaimSplits(rows, SetOf(Ids(events)), SetOf(Ids(retry)), SetOf(exhausted), maxAttempts, now);
      var ok := UpdateWhere(Ids(retry), Processing, row => Retried(row, now));
      assert ok;
      ok := UpdateWhere(exhausted, Processing, row => Exhausted(row, now));
      assert ok;
      reclaimed := ApplyState(retry, row => Retried(row, now));
    }

    /** Reclaim events that stayed in PROCESSING too long: one more attempt is counted, and those
        that used up their attempts become INVALID and are not handed out. */
    method ResetStuckProcessing(limit: int, processingBefore: int, maxAttempts: int, now: int, fault: bool)
      returns (r: Result<seq<Event>>, ghost stuck: seq<Id>)
      modifies this`rows, this`grants
      ensures r.Ok? <==> limit > 0 && maxAttempts > 0 && !fault
      ensures r.Err? ==> r.error == (if limit <= 0 then LimitMustBePositive
                                     else if maxAttempts <= 0 then MaxAttemptsMustBePositive else DatabaseError)
      ensures r.Err? ==> rows == old(rows) && grants == old(grants)
      ensures r.Ok? ==>
                && Maximal(old(rows), stuck, limit, locked,
                           (row: Row) => row.status == Processing && row.updatedAt <= processingBefore)
                && Retakes(old(rows), rows, stuck, maxAttempts, now)
                && |r.value| <= |stuck| && Distinct(Ids(r.value)) && Copies(r.value, rows)
                && (forall id :: id in Ids(r.value) <==> id in stuck && old(rows)[id].attempts + 1 < maxAttempts)
                && Granted(r.value, old(rows), old(grants), grants)
    {
      stuck := [];
      if limit <= 0 {
        r := Err(LimitMustBePositive);
        return;
      }
      if maxAttempts <= 0 {
        r := Err(MaxAttemptsMustBePositive);
        return;
      }
      if fault {
        r := Err(DatabaseError);
        return;
      }
      var events := Select(rows, row => IsStuck(row, processingBefore), limit, locked);
      stuck := Ids(events);
      var reclaimed := ReclaimEvents(events, processingBefore, maxAttempts, now);
      ReclaimedRetakes(old(rows), stuck, maxAttempts, now);
      IdsMembers(reclaimed);
      grants := grants + GrantsOf(reclaimed, old(rows));
      r := Ok(reclaimed);
    }

    // A state update goes through exactly if the row is in PROCESSING.

    /** PROCESSING -> PUBLISHED. */
    method MarkPublished(id: Id, now: int, fault: bool) returns (r: Result<()>)
      modifies this`rows, this`published
      ensures r.Ok? <==> !fault && id in old(rows) && old(rows)[id].status == Processing
      ensures r.Err? ==> r.error == (if fault then DatabaseError else StateConflict)
      ensures r.Ok? ==>
                && rows == old(rows)[id := Row(old(rows)[id].eventType, Published, old(rows)[id].attempts, now)]
                && published == old(published) + [id]
      ensures r.Err? ==> rows == old(rows) && published == old(published)
    {
      r := MarkOne(id, row => Delivered(row, now), fault);
      if r.Ok? {
        published := published + [id];
      }
    }

    /** PROCESSING -> FAILED, or INVALID when this was the last attempt. */
    method MarkFailed(id: Id, maxAttempts: int, now: int, fault: bool) returns (r: Result<()>)
      modifies this`rows
      ensures r.Ok? <==> maxAttempts > 0 && !fault && id in old(rows) && old(rows)[id].status == Processing
      ensures r.Err? ==> r.error == (if maxAttempts <= 0 then MaxAttemptsMustBePositive
                                     else if fault then DatabaseError else StateConflict)
      ensures r.Ok? ==>
                var was := old(rows)[id];
                rows == old(rows)[id := Row(was.eventType, if was.attempts + 1 < maxAttempts then Failed else Invalid,
                                            was.attempts + 1, now)]
      ensures r.Err? ==> rows == old(rows)
    {
      if maxAttempts <= 0 {
        return Err(MaxAttemptsMustBePositive);
      }
      r := MarkOne(id, row => Refused(row, maxAttempts, now), fault);
    }

    /** PROCESSING -> INVALID. */
    method MarkInvalid(id: Id, now: int, fault: bool) returns (r: Result<()>)
      modifies this`rows
      ensures r.Ok? <==> !fault && id in old(rows) && old(rows)[id].status == Processing
      ensures r.Err? ==> r.error == (if fault then DatabaseError else StateConflict)
      ensures r.Ok? ==> rows == old(rows)[id := Row(old(rows)[id].eventType, Invalid, old(rows)[id].attempts, now)]
      ensures r.Err? ==> rows == old(rows)
    {
      r := MarkOne(id, row => Rejected(row, now), fault);
    }

    method MarkOne(id: Id, change: Row -> Row, fault: bool) returns (r: Result<()>)
      modifies this`rows
      ensures r.Ok? <==> !fault && id in old(rows) && old(rows)[id].status == Processing
      ensures r.Err? ==> r.error == (if fault then DatabaseError else StateConflict)
      ensures r.Ok? ==> rows == old(rows)[id := change(old(rows)[id])]
      ensures r.Err? ==> rows == old(rows)
    {
      if fault {
        return Err(DatabaseError);
      }
      var ok := UpdateWhere([id], Processing, change);
      assert id in [id];
      if !ok {
        return Err(StateConflict);
      }
      return Ok(());
    }
  }
}
