/** Building a plan from an intent, and what applying the whole plan does to a catalog of balances. */
module TransactionPlan {
  import opened Options
  import opened Text
  import opened Transaction

  function ResolveOperation(pending: bool, isSource: bool, status: Status): Result<Operation> {
    if pending then
      match status
      case Pending => Ok(if isSource then OnHold else Credit)
      case Canceled => Ok(if isSource then Release else Debit)
      case Approved => Ok(if isSource then Debit else Credit)
      case _ => Err(InvalidStateTransition)
    else if status == Created then Ok(if isSource then Debit else Credit)
    else Err(InvalidStateTransition)
  }

  /** A resolved operation can be applied in its status, with one exception: the debit of the
      destinations of a canceled pending transaction is always refused. */
  lemma ResolvedOperationApplies(pending: bool, isSource: bool, status: Status, b: Balance, p: Posting)
    requires ResolveOperation(pending, isSource, status) == Ok(p.operation) && p.status == status
    ensures ApplyOperation(b, p).Err? <==> status == Canceled && !isSource
  {
  }

  // ---------- one allocation ----------

  /** share / 100, rounded half up to sixteen decimal places. */
  function Hundredth(share: real): real {
    (share * 100000000000000.0 + 0.5).Floor as real / 10000000000000000.0
  }

  /** It has sixteen decimal places and is off by at most half a unit in the last; ties go up. */
  lemma HundredthIsNearest(share: real) returns (units: int)
    ensures Hundredth(share) == units as real / 10000000000000000.0
    ensures -0.00000000000000005 <= share / 100.0 - Hundredth(share) < 0.00000000000000005
  {
    units := (share * 100000000000000.0 + 0.5).Floor;
  }

  /** A share of a positive total comes to nothing exactly if it is below this. */
  lemma SmallestShare(total: real, share: real)
    requires total > 0.0 && share > 0.0
    ensures total * Hundredth(share) > 0.0 <==> share >= 0.000000000000005
  {
    var units := (share * 100000000000000.0 + 0.5).Floor;
    assert units >= 1 <==> share >= 0.000000000000005;
    var h := Hundredth(share);
    assert h > 0.0 <==> units >= 1;
    if h > 0.0 {
      assert total * h > 0.0;
    } else {
      assert h == 0.0;
    }
  }

  function Strategies(a: Allocation): int {
    (if a.amount.Some? then 1 else 0) + (if a.share.Some? then 1 else 0) + (if a.remainder then 1 else 0)
  }

  /** The amount an allocation asks for; nothing yet for the remainder. */
  function ResolveAmount(total: real, a: Allocation): (r: Result<Option<real>>)
    ensures r.Ok? && r.value.Some? ==> r.value.value > 0.0
  {
    if a.amount.Some? then
      if a.amount.value > 0.0 then Ok(a.amount) else Err(InvalidInput)
    else if a.share.Some? then
      if !(a.share.value > 0.0) || a.share.value > 100.0 then Err(InvalidInput)
      else
        var amount := total * Hundredth(a.share.value);
        if amount > 0.0 then Ok(Some(amount)) else Err(InvalidInput)
    else if a.remainder then Ok(None)
    else Err(InvalidInput)
  }

  /** The settings that all postings of one side share. */
  datatype Side = Side(asset: string, total: real, pending: bool, status: Status, isSource: bool)

  /** Pending intents are planned in three statuses, the others when they are created. */
  predicate ValidStatus(pending: bool, status: Status) {
    if pending then status == Pending || status == Approved || status == Canceled else status == Created
  }

  /** The allocation names its target and exactly one way to find a positive amount. */
  predicate ValidRequest(total: real, a: Allocation) {
    && !Blank(a.target.accountId) && !Blank(a.target.balanceId)
    && match (a.amount, a.share)
       case (Some(amount), None) => amount > 0.0 && !a.remainder
       case (None, Some(share)) => 0.0 < share <= 100.0 && total * Hundredth(share) > 0.0 && !a.remainder
       case (None, None) => a.remainder
       case _ => false
  }

  predicate ValidAllocation(s: Side, a: Allocation) { ValidRequest(s.total, a) && ValidStatus(s.pending, s.status) }

  /** The fixed amount an allocation asks for; zero stands for the remainder. */
  function Asked(total: real, a: Allocation): real {
    if a.amount.Some? then a.amount.value else if a.share.Some? then total * Hundredth(a.share.value) else 0.0
  }

  /** The posting carries out the allocation, with the operation of its side and this amount. */
  predicate CarriesOut(s: Side, a: Allocation, p: Posting, amount: real) {
    && ResolveOperation(s.pending, s.isSource, s.status) == Ok(p.operation)
    && p == Posting(a.target, s.asset, amount, p.operation, s.status, a.route)
  }

  /** The posting of an allocation, with amount zero while it waits for the remainder. */
  function BuildPosting(s: Side, a: Allocation): (r: Result<Posting>)
    ensures r.Ok? <==> ValidAllocation(s, a)
    ensures r.Ok? ==> CarriesOut(s, a, r.value, Asked(s.total, a)) && (a.remainder <==> r.value.amount == 0.0)
    ensures r.Err? ==>
              r.error == InvalidInput || (r.error == InvalidStateTransition && !ValidStatus(s.pending, s.status))
  {
    if !ValidTarget(a.target) then Err(InvalidInput)
    else if Strategies(a) != 1 then Err(InvalidInput)
    else
      var op := ResolveOperation(s.pending, s.isSource, s.status);
      if op.Err? then Err(op.error) else
      var amount := ResolveAmount(s.total, a);
      if amount.Err? then Err(amount.error)
      else Ok(Posting(a.target, s.asset, if amount.value.Some? then amount.value.value else 0.0,
                      op.value, s.status, a.route))
  }

  // ---------- one side of a plan ----------

  function Amounts(ps: seq<Posting>): (xs: seq<real>)
    ensures |xs| == |ps| && forall i :: 0 <= i < |ps| ==> xs[i] == ps[i].amount
  {
    seq(|ps|, i requires 0 <= i < |ps| => ps[i].amount)
  }

  function AskedAmounts(total: real, allocs: seq<Allocation>): (xs: seq<real>)
    ensures |xs| == |allocs| && forall i :: 0 <= i < |allocs| ==> xs[i] == Asked(total, allocs[i])
  {
    seq(|allocs|, i requires 0 <= i < |allocs| => Asked(total, allocs[i]))
  }

  ghost predicate OneRemainder(allocs: seq<Allocation>) {
    forall i, j :: 0 <= i < j < |allocs| ==> !(allocs[i].remainder && allocs[j].remainder)
  }

  ghost predicate Sensible(s: Side, allocs: seq<Allocation>) {
    (forall i :: 0 <= i < |allocs| ==> ValidAllocation(s, allocs[i])) && OneRemainder(allocs)
  }

  /** The fixed amounts leave something for the remainder, or make up the total if there is none. */
  ghost predicate AddsUp(total: real, allocs: seq<Allocation>) {
    if exists i :: 0 <= i < |allocs| && allocs[i].remainder then Total(AskedAmounts(total, allocs)) < total
    else Total(AskedAmounts(total, allocs)) == total
  }

  /** Exactly the allocations that can be planned: each valid, at most one remainder, and they add up. */
  ghost predicate Plannable(s: Side, allocs: seq<Allocation>) { Sensible(s, allocs) && AddsUp(s.total, allocs) }

  /** The postings carry out the allocations in order, each with a positive amount: the one asked for,
      unless it is the remainder. */
  ghost predicate Follows(s: Side, allocs: seq<Allocation>, ps: seq<Posting>) {
    && |ps| == |allocs|
    && forall i :: 0 <= i < |ps| ==>
         && ValidAllocation(s, allocs[i]) && CarriesOut(s, allocs[i], ps[i], ps[i].amount) && ps[i].amount > 0.0
         && (!allocs[i].remainder ==> ps[i].amount == Asked(s.total, allocs[i]))
  }

  lemma UpdateSplits(xs: seq<real>, i: nat, v: real)
    requires i < |xs|
    ensures xs[i := v] == xs[..i] + [v] + xs[i + 1..]
  {
  }

  lemma TotalUpdate(xs: seq<real>, i: nat, v: real)
    requires i < |xs|
    ensures Total(xs[i := v]) == Total(xs) - xs[i] + v
  {
    SplitAt(xs, i);
    UpdateSplits(xs, i, v);
    TotalWithout(xs[..i], xs[i], xs[i + 1..]);
    TotalWithout(xs[..i], v, xs[i + 1..]);
  }

  lemma AmountsSnoc(ps: seq<Posting>, p: Posting)
    ensures Total(Amounts(ps + [p])) == Total(Amounts(ps)) + p.amount
  {
    assert Amounts(ps + [p]) == Amounts(ps) + [p.amount];
    TotalSnoc(Amounts(ps), p.amount);
  }

  lemma AmountsUpdate(ps: seq<Posting>, i: nat, p: Posting)
    requires i < |ps|
    ensures Total(Amounts(ps[i := p])) == Total(Amounts(ps)) - ps[i].amount + p.amount
  {
    assert Amounts(ps[i := p]) == Amounts(ps)[i := p.amount];
    TotalUpdate(Amounts(ps), i, p.amount);
  }

  /** The postings in allocation order, still without the remainder, and where the remainder goes. */
  ghost predicate Drafted(s: Side, allocs: seq<Allocation>, ps: seq<Posting>, remainderIndex: int) {
    && |ps| == |allocs| && -1 <= remainderIndex < |allocs|
    && (forall k :: 0 <= k < |allocs| ==>
          ValidAllocation(s, allocs[k]) && CarriesOut(s, allocs[k], ps[k], Asked(s.total, allocs[k])))
    && (forall k :: 0 <= k < |allocs| ==> (allocs[k].remainder <==> k == remainderIndex))
  }

  lemma DraftedDecides(s: Side, allocs: seq<Allocation>, ps: seq<Posting>, remainderIndex: int)
    requires Drafted(s, allocs, ps, remainderIndex)
    ensures Sensible(s, allocs)
    ensures AddsUp(s.total, allocs) <==>
      if remainderIndex >= 0 then Total(Amounts(ps)) < s.total else Total(Amounts(ps)) == s.total
  {
    assert Amounts(ps) == AskedAmounts(s.total, allocs);
    if remainderIndex >= 0 {
      assert allocs[remainderIndex].remainder;
    }
  }

  lemma DraftedFollows(s: Side, allocs: seq<Allocation>, ps: seq<Posting>, remainderIndex: int, remainder: real)
    requires Drafted(s, allocs, ps, remainderIndex) && remainder > 0.0
    ensures remainderIndex < 0 ==> Follows(s, allocs, ps)
    ensures remainderIndex >= 0 ==>
      Follows(s, allocs, ps[remainderIndex := ps[remainderIndex].(amount := remainder)])
  {
  }

  lemma RemainderWaits(s: Side, allocs: seq<Allocation>, ps: seq<Posting>, remainderIndex: int)
    requires Drafted(s, allocs, ps, remainderIndex) && remainderIndex >= 0
    ensures ps[remainderIndex].amount == 0.0
  {
  }

  lemma DraftedExtends(s: Side, allocs: seq<Allocation>, ps: seq<Posting>, remainderIndex: int, a: Allocation)
    requires Drafted(s, allocs, ps, remainderIndex) && ValidAllocation(s, a)
    ensures !a.remainder ==> Drafted(s, allocs + [a], ps + [BuildPosting(s, a).value], remainderIndex)
    ensures a.remainder && remainderIndex < 0 ==>
      Drafted(s, allocs + [a], ps + [BuildPosting(s, a).value], |allocs|)
  {
  }

  method BuildPostings(s: Side, allocs: seq<Allocation>) returns (r: Result<seq<Posting>>)
    ensures r.Ok? <==> Plannable(s, allocs)
    ensures r.Ok? ==> Follows(s, allocs, r.value) && Total(Amounts(r.value)) == s.total
    ensures r.Err? ==> (r.error == ValueMismatch <==> Sensible(s, allocs))
    ensures r.Err? && r.error == InvalidStateTransition ==> !ValidStatus(s.pending, s.status)
    ensures r != Err(Ambiguous)
  {
    var postings: seq<Posting>, spent, remainderIndex := [], 0.0, -1;
    for i := 0 to |allocs|
      invariant Drafted(s, allocs[..i], postings, remainderIndex)
      invariant spent == Total(Amounts(postings))
    {
      var posting := BuildPosting(s, allocs[i]);
      if posting.Err? {
        return Err(posting.error);
      }
      DraftedExtends(s, allocs[..i], postings, remainderIndex, allocs[i]);
      AmountsSnoc(postings, posting.value);
      assert allocs[..i + 1] == allocs[..i] + [allocs[i]];
      postings := postings + [posting.value];
      if allocs[i].remainder {
        if remainderIndex >= 0 {
          assert allocs[..i][remainderIndex].remainder;
          return Err(InvalidInput);
        }
        remainderIndex := i;
      } else {
        spent := spent + posting.value.amount;
      }
    }
    assert allocs[..|allocs|] == allocs;
    DraftedDecides(s, allocs, postings, remainderIndex);
    if remainderIndex >= 0 {
      var remainder := s.total - spent;
      if !(remainder > 0.0) {
        return Err(ValueMismatch);
      }
      RemainderWaits(s, allocs, postings, remainderIndex);
      AmountsUpdate(postings, remainderIndex, postings[remainderIndex].(amount := remainder));
      DraftedFollows(s, allocs, postings, remainderIndex, remainder);
      postings := postings[remainderIndex := postings[remainderIndex].(amount := remainder)];
      spent := spent + remainder;
    } else {
      DraftedFollows(s, allocs, postings, remainderIndex, 1.0);
    }
    if spent != s.total {
      return Err(ValueMismatch);
    }
    return Ok(postings);
  }

  method SumPostings(ps: seq<Posting>) returns (total: real)
    ensures total == Total(Amounts(ps))
  {
    total := 0.0;
    for i := 0 to |ps|
      invariant total == Total(Amounts(ps)[..i])
    {
      assert Amounts(ps)[..i + 1][..i] == Amounts(ps)[..i];
      total := total + ps[i].amount;
    }
    assert Amounts(ps)[..|ps|] == Amounts(ps);
  }

  // ---------- the plan ----------

  ghost predicate Disjoint(sources: seq<Target>, destinations: seq<Target>) {
    forall i, j :: 0 <= i < |sources| && 0 <= j < |destinations| ==> sources[i].balanceId != destinations[j].balanceId
  }

  function Targets(allocs: seq<Allocation>): (ts: seq<Target>)
    ensures |ts| == |allocs| && forall i :: 0 <= i < |allocs| ==> ts[i] == allocs[i].target
  {
    seq(|allocs|, i requires 0 <= i < |allocs| => allocs[i].target)
  }

  function PostingTargets(ps: seq<Posting>): (ts: seq<Target>)
    ensures |ts| == |ps| && forall i :: 0 <= i < |ps| ==> ts[i] == ps[i].target
  {
    seq(|ps|, i requires 0 <= i < |ps| => ps[i].target)
  }

  lemma FollowsTargets(s: Side, allocs: seq<Allocation>, ps: seq<Posting>)
    requires Follows(s, allocs, ps)
    ensures PostingTargets(ps) == Targets(allocs)
  {
  }

  /** Whether some balance appears on both sides. */
  method Overlap(sources: seq<Posting>, destinations: seq<Posting>) returns (found: bool)
    ensures !found <==> Disjoint(PostingTargets(sources), PostingTargets(destinations))
  {
    var sourceIds: set<string> := {};
    for i := 0 to |sources|
      invariant forall k :: 0 <= k < i ==> sources[k].target.balanceId in sourceIds
      invariant forall id :: id in sourceIds ==> exists k :: 0 <= k < i && id == sources[k].target.balanceId
    {
      sourceIds := sourceIds + {sources[i].target.balanceId};
    }
    for j := 0 to |destinations|
      invariant forall k :: 0 <= k < j ==> destinations[k].target.balanceId !in sourceIds
    {
      if destinations[j].target.balanceId in sourceIds {
        assert PostingTargets(destinations)[j].balanceId in sourceIds;
        return true;
      }
    }
    return false;
  }

  predicate Complete(x: Intent) { !Blank(x.asset) && x.total > 0.0 && x.sources != [] && x.destinations != [] }

  /** Both sides of the intent can be planned. */
  ghost predicate BothPlannable(x: Intent, status: Status) {
    && Plannable(Side(x.asset, x.total, x.pending, status, true), x.sources)
    && Plannable(Side(x.asset, x.total, x.pending, status, false), x.destinations)
  }

  /** Exactly the intents that can be planned. */
  ghost predicate ValidIntent(x: Intent, status: Status) {
    Complete(x) && BothPlannable(x, status) && Disjoint(Targets(x.sources), Targets(x.destinations))
  }

  /** The plan says what the intent says, side by side. */
  ghost predicate PlanOf(x: Intent, status: Status, plan: Plan) {
    && plan.asset == x.asset && plan.total == x.total && plan.pending == x.pending
    && Follows(Side(x.asset, x.total, x.pending, status, true), x.sources, plan.sources)
    && Follows(Side(x.asset, x.total, x.pending, status, false), x.destinations, plan.destinations)
    && Total(Amounts(plan.sources)) == x.total && Total(Amounts(plan.destinations)) == x.total
    && Disjoint(Targets(x.sources), Targets(x.destinations)) && x.sources != [] && x.destinations != []
    && OneRemainder(x.sources) && OneRemainder(x.destinations)
  }

  method BuildIntentPlan(x: Intent, status: Status) returns (r: Result<Plan>)
    ensures r.Ok? <==> ValidIntent(x, status)
    ensures r.Ok? ==> PlanOf(x, status, r.value)
    ensures r == Err(Ambiguous) <==>
              Complete(x) && BothPlannable(x, status) && !Disjoint(Targets(x.sources), Targets(x.destinations))
    ensures r == Err(InvalidStateTransition) ==> Complete(x) && !ValidStatus(x.pending, status)
    ensures r == Err(ValueMismatch) ==>
              Complete(x) && (!AddsUp(x.total, x.sources) || !AddsUp(x.total, x.destinations))
  {
    if Blank(x.asset) || !(x.total > 0.0) || x.sources == [] || x.destinations == [] {
      return Err(InvalidInput);
    }
    var sources := BuildPostings(Side(x.asset, x.total, x.pending, status, true), x.sources);
    if sources.Err? {
      return Err(sources.error);
    }
    var destinations := BuildPostings(Side(x.asset, x.total, x.pending, status, false), x.destinations);
    if destinations.Err? {
      return Err(destinations.error);
    }
    var sourceTotal := SumPostings(sources.value);
    var destinationTotal := SumPostings(destinations.value);
    if sourceTotal != x.total || destinationTotal != x.total {
      assert false;
    }
    FollowsTargets(Side(x.asset, x.total, x.pending, status, true), x.sources, sources.value);
    FollowsTargets(Side(x.asset, x.total, x.pending, status, false), x.destinations, destinations.value);
    var found := Overlap(sources.value, destinations.value);
    if found {
      return Err(Ambiguous);
    }
    return Ok(Plan(x.asset, x.total, x.pending, sources.value, destinations.value));
  }
}
