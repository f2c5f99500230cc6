/** Applying all postings of a plan to a catalog of balances: conservation and independence of order. */
module TransactionLedger {
  import opened Options
  import opened Text
  import opened Transaction
  import opened TransactionPlan

  type Catalog = map<string, Balance>

  function Post(c: Catalog, p: Posting): Result<Catalog> {
    if p.target.balanceId !in c then Err(AccountIneligibility)
    else
      var r := ApplyPosting(c[p.target.balanceId], p);
      if r.Err? then Err(r.error) else Ok(c[p.target.balanceId := r.value])
  }

  function PostAll(c: Catalog, ps: seq<Posting>): Result<Catalog>
    decreases |ps|
  {
    if ps == [] then Ok(c)
    else
      var r := Post(c, ps[0]);
      if r.Err? then r else PostAll(r.value, ps[1..])
  }

  function Postings(plan: Plan): seq<Posting> { plan.sources + plan.destinations }

  // ---------- conservation ----------

  /** Available plus on-hold over the whole catalog. */
  ghost function Wealth(c: Catalog): real
    decreases |c|
  {
    if c == map[] then 0.0
    else
      var id :| id in c;
      Worth(c[id]) + Wealth(c - {id})
  }

  lemma {:induction false} WealthSplit(c: Catalog, id: string)
    requires id in c
    ensures Wealth(c) == Worth(c[id]) + Wealth(c - {id})
    decreases |c|
  {
    var pick :| pick in c && Wealth(c) == Worth(c[pick]) + Wealth(c - {pick});
    if pick != id {
      WealthSplit(c - {pick}, id);
      WealthSplit(c - {id}, pick);
      assert c - {pick} - {id} == c - {id} - {pick};
    }
  }

  lemma WealthUpdate(c: Catalog, id: string, b: Balance)
    requires id in c
    ensures Wealth(c[id := b]) == Wealth(c) - Worth(c[id]) + Worth(b)
  {
    WealthSplit(c, id);
    WealthSplit(c[id := b], id);
    assert c[id := b] - {id} == c - {id};
  }

  function Deltas(ps: seq<Posting>): (ds: seq<real>)
    ensures |ds| == |ps| && forall i :: 0 <= i < |ps| ==> ds[i] == Delta(ps[i])
  {
    seq(|ps|, i requires 0 <= i < |ps| => Delta(ps[i]))
  }

  lemma {:induction false} PostAllDelta(c: Catalog, ps: seq<Posting>)
    requires PostAll(c, ps).Ok?
    ensures PostAll(c, ps).value.Keys == c.Keys
    ensures Wealth(PostAll(c, ps).value) == Wealth(c) + Total(Deltas(ps))
    decreases |ps|
  {
    if ps != [] {
      var id := ps[0].target.balanceId;
      PostingDelta(c[id], ps[0]);
      WealthUpdate(c, id, ApplyPosting(c[id], ps[0]).value);
      PostAllDelta(Post(c, ps[0]).value, ps[1..]);
      TotalAppend([Delta(ps[0])], Deltas(ps[1..]));
      assert Deltas(ps) == [Delta(ps[0])] + Deltas(ps[1..]);
      assert Total([Delta(ps[0])]) == Delta(ps[0]);
    }
  }

  /** A balance whose postings only move money between its available and on-hold parts keeps its worth. */
  lemma {:induction false} WorthKept(c: Catalog, ps: seq<Posting>, id: string)
    requires PostAll(c, ps).Ok? && id in c
    requires forall i :: 0 <= i < |ps| && ps[i].target.balanceId == id ==> Delta(ps[i]) == 0.0
    ensures id in PostAll(c, ps).value && Worth(PostAll(c, ps).value[id]) == Worth(c[id])
    decreases |ps|
  {
    if ps != [] {
      PostingDelta(c[ps[0].target.balanceId], ps[0]);
      WorthKept(Post(c, ps[0]).value, ps[1..], id);
    }
  }

  /** The postings of one side: all of one operation and status. */
  ghost predicate Uniform(ps: seq<Posting>, op: Operation, status: Status) {
    forall i :: 0 <= i < |ps| ==> ps[i].operation == op && ps[i].status == status
  }

  lemma {:induction false} SideDelta(ps: seq<Posting>, op: Operation, status: Status)
    requires Uniform(ps, op, status)
    ensures op == Debit ==> Total(Deltas(ps)) == -Total(Amounts(ps))
    ensures op == Credit ==> Total(Deltas(ps)) == Total(Amounts(ps))
    ensures op == OnHold || op == Release ==> Total(Deltas(ps)) == 0.0
  {
    if ps != [] {
      var rest := ps[..|ps| - 1];
      SideDelta(rest, op, status);
      assert Deltas(ps)[..|rest|] == Deltas(rest) && Amounts(ps)[..|rest|] == Amounts(rest);
    }
  }

  lemma SideShape(s: Side, allocs: seq<Allocation>, ps: seq<Posting>)
    requires Follows(s, allocs, ps) && allocs != []
    ensures ResolveOperation(s.pending, s.isSource, s.status) == Ok(ps[0].operation)
    ensures Uniform(ps, ps[0].operation, s.status)
  {
  }

  /** The sources of a plan share one operation and its destinations another. */
  lemma PlanShape(x: Intent, status: Status, plan: Plan) returns (source: Operation, destination: Operation)
    requires PlanOf(x, status, plan)
    ensures Uniform(plan.sources, source, status) && Uniform(plan.destinations, destination, status)
    ensures ResolveOperation(x.pending, true, status) == Ok(source)
    ensures ResolveOperation(x.pending, false, status) == Ok(destination)
    ensures plan.destinations != [] && Total(Amounts(plan.sources)) == Total(Amounts(plan.destinations)) == x.total
    ensures PostingTargets(plan.destinations) == Targets(x.destinations)
    ensures Disjoint(PostingTargets(plan.sources), PostingTargets(plan.destinations))
  {
    var s := Side(x.asset, x.total, x.pending, status, true);
    SideShape(s, x.sources, plan.sources);
    FollowsTargets(s, x.sources, plan.sources);
    SideShape(s.(isSource := false), x.destinations, plan.destinations);
    FollowsTargets(s.(isSource := false), x.destinations, plan.destinations);
    source, destination := plan.sources[0].operation, plan.destinations[0].operation;
  }

  lemma {:induction false} RefusedPosting(c: Catalog, ps: seq<Posting>, i: nat)
    requires i < |ps| && forall b :: ApplyOperation(b, ps[i]).Err?
    ensures PostAll(c, ps).Err?
    decreases |ps|
  {
    if i > 0 && Post(c, ps[0]).Ok? {
      RefusedPosting(Post(c, ps[0]).value, ps[1..], i - 1);
    }
  }

  /** A canceled plan can never be applied as a whole: the debit of its destinations is refused. */
  lemma CanceledNeverApplies(x: Intent, plan: Plan, c: Catalog)
    requires PlanOf(x, Canceled, plan)
    ensures PostAll(c, Postings(plan)).Err?
  {
    var source, destination := PlanShape(x, Canceled, plan);
    var ps, i := Postings(plan), |plan.sources|;
    assert ps[i] == plan.destinations[0];
    RefusedPosting(c, ps, i);
  }

  lemma UniformKeepsWorth(plan: Plan, status: Status, c: Catalog, id: string)
    requires Uniform(plan.sources, OnHold, status) && PostAll(c, Postings(plan)).Ok? && id in c
    requires forall p :: p in plan.destinations ==> p.target.balanceId != id
    ensures id in PostAll(c, Postings(plan)).value && Worth(PostAll(c, Postings(plan)).value[id]) == Worth(c[id])
  {
    var ps := Postings(plan);
    assert forall i :: 0 <= i < |ps| ==> ps[i] in plan.sources || ps[i] in plan.destinations;
    WorthKept(c, ps, id);
  }

  /** A balance that is not a destination of a PENDING plan keeps its worth. */
  lemma SourcesKeepWorth(x: Intent, plan: Plan, c: Catalog, id: string)
    requires PlanOf(x, Pending, plan) && PostAll(c, Postings(plan)).Ok? && id in c
    requires forall t :: t in Targets(x.destinations) ==> t.balanceId != id
    ensures id in PostAll(c, Postings(plan)).value && Worth(PostAll(c, Postings(plan)).value[id]) == Worth(c[id])
  {
    var source, destination := PlanShape(x, Pending, plan);
    forall p | p in plan.destinations ensures p.target.balanceId != id {
      assert p.target in PostingTargets(plan.destinations);
    }
    UniformKeepsWorth(plan, Pending, c, id);
  }

  lemma PlanDelta(plan: Plan, source: Operation, status: Status)
    requires Uniform(plan.sources, source, status) && Uniform(plan.destinations, Credit, status)
    requires Total(Amounts(plan.sources)) == Total(Amounts(plan.destinations))
    ensures source == Debit ==> Total(Deltas(Postings(plan))) == 0.0
    ensures source == OnHold ==> Total(Deltas(Postings(plan))) == Total(Amounts(plan.destinations))
  {
    SideDelta(plan.sources, source, status);
    SideDelta(plan.destinations, Credit, status);
    assert Deltas(Postings(plan)) == Deltas(plan.sources) + Deltas(plan.destinations);
    TotalAppend(Deltas(plan.sources), Deltas(plan.destinations));
  }

  /** Applying a whole plan conserves the wealth, except that a PENDING plan adds its total. */
  lemma PlanConserves(x: Intent, status: Status, plan: Plan, c: Catalog)
    requires PlanOf(x, status, plan) && PostAll(c, Postings(plan)).Ok?
    ensures status != Canceled
    ensures Wealth(PostAll(c, Postings(plan)).value) == Wealth(c) + (if status == Pending then x.total else 0.0)
  {
    if status == Canceled {
      CanceledNeverApplies(x, plan, c);
    }
    var source, destination := PlanShape(x, status, plan);
    PostAllDelta(c, Postings(plan));
    PlanDelta(plan, source, status);
  }

  /** The whole life of a pending transaction that is approved: its total is credited twice and
      debited once. */
  lemma ApprovalCreditsTwice(x: Intent, pending: Plan, approved: Plan, c: Catalog)
    requires PlanOf(x, Pending, pending) && PlanOf(x, Approved, approved)
    requires PostAll(c, Postings(pending)).Ok? && PostAll(PostAll(c, Postings(pending)).value, Postings(approved)).Ok?
    ensures Wealth(PostAll(PostAll(c, Postings(pending)).value, Postings(approved)).value) == Wealth(c) + x.total
  {
    PlanConserves(x, Pending, pending, c);
    PlanConserves(x, Approved, approved, PostAll(c, Postings(pending)).value);
  }

  /** A pending transfer between two balances, in one of its stages. */
  function Transfer(asset: string, total: real, from: Target, to: Target, operation: Operation, status: Status): Plan {
    Plan(asset, total, true, [Posting(from, asset, total, operation, status, "")],
         [Posting(to, asset, total, Credit, status, "")])
  }

  function TransferIntent(asset: string, total: real, from: Target, to: Target): Intent {
    Intent(asset, total, true, [Allocation(from, Some(total), None, false, "")],
           [Allocation(to, Some(total), None, false, "")])
  }

  lemma SingleSide(s: Side, a: Allocation, p: Posting)
    requires ValidTarget(a.target) && a.amount == Some(s.total) && a.share.None? && !a.remainder && s.total > 0.0
    requires ResolveOperation(s.pending, s.isSource, s.status) == Ok(p.operation)
    requires p == Posting(a.target, s.asset, s.total, p.operation, s.status, a.route)
    ensures Follows(s, [a], [p]) && Total(Amounts([p])) == s.total
  {
    TotalSnoc([], p.amount);
    assert Amounts([p]) == [] + [p.amount];
  }

  lemma TransferPlan(asset: string, total: real, from: Target, to: Target, operation: Operation, status: Status)
    requires ValidTarget(from) && ValidTarget(to) && from.balanceId != to.balanceId && total > 0.0
    requires (operation == OnHold && status == Pending) || (operation == Debit && status == Approved)
    ensures PlanOf(TransferIntent(asset, total, from, to), status, Transfer(asset, total, from, to, operation, status))
  {
    var x, plan := TransferIntent(asset, total, from, to), Transfer(asset, total, from, to, operation, status);
    var s := Side(asset, total, true, status, true);
    SingleSide(s, x.sources[0], plan.sources[0]);
    SingleSide(s.(isSource := false), x.destinations[0], plan.destinations[0]);
  }

  /** Every transfer that was held and then approved: the payer pays once, the payee receives twice. */
  lemma TransferCreditsTwice(asset: string, total: real, from: Target, to: Target, c: Catalog)
    requires ValidTarget(from) && ValidTarget(to) && from.balanceId != to.balanceId && total > 0.0
    requires from.balanceId in c && to.balanceId in c
    requires var b := c[from.balanceId];
             b.id == from.balanceId && b.accountId == from.accountId && b.asset == asset
             && NonNegative(b) && b.available >= total
    requires var b := c[to.balanceId];
             b.id == to.balanceId && b.accountId == to.accountId && b.asset == asset && NonNegative(b)
    ensures var held := PostAll(c, Postings(Transfer(asset, total, from, to, OnHold, Pending)));
            && held.Ok?
            && var settled := PostAll(held.value, Postings(Transfer(asset, total, from, to, Debit, Approved)));
               && settled.Ok? && from.balanceId in settled.value && to.balanceId in settled.value
               && settled.value[from.balanceId].available == c[from.balanceId].available - total
               && settled.value[from.balanceId].onHold == c[from.balanceId].onHold
               && settled.value[to.balanceId].available == c[to.balanceId].available + total + total
  {
    var pending, approved := Transfer(asset, total, from, to, OnHold, Pending),
      Transfer(asset, total, from, to, Debit, Approved);
    PostPair(c, pending);
    PostPair(PostAll(c, Postings(pending)).value, approved);
  }

  /** Both stages of one intent apply in full on a concrete catalog: the double credit is real. */
  lemma ApprovalCreditsTwiceExample() returns (x: Intent, pending: Plan, approved: Plan, c: Catalog)
    ensures PlanOf(x, Pending, pending) && PlanOf(x, Approved, approved) && Solvent(c) && x.total == 10.0
    ensures PostAll(c, Postings(pending)).Ok? && PostAll(PostAll(c, Postings(pending)).value, Postings(approved)).Ok?
  {
    var from, to := Target("payer", "from"), Target("payee", "to");
    NamesAreValid();
    x := TransferIntent("BRL", 10.0, from, to);
    pending := Transfer("BRL", 10.0, from, to, OnHold, Pending);
    approved := Transfer("BRL", 10.0, from, to, Debit, Approved);
    TransferPlan("BRL", 10.0, from, to, OnHold, Pending);
    TransferPlan("BRL", 10.0, from, to, Debit, Approved);
    c := map["from" := Balance("from", "payer", "BRL", 10.0, 0.0, 0),
             "to" := Balance("to", "payee", "BRL", 0.0, 0.0, 0)];
    TransferCreditsTwice("BRL", 10.0, from, to, c);
  }

  lemma NamesAreValid()
    ensures ValidTarget(Target("payer", "from")) && ValidTarget(Target("payee", "to"))
    ensures "from" != "to"
  {
    assert !IsSpace("payer"[0]) && !IsSpace("payee"[0]) && !IsSpace("from"[0]) && !IsSpace("to"[0]);
    assert "from"[0] != "to"[0];
  }

  lemma PostPair(c: Catalog, plan: Plan)
    requires |plan.sources| == |plan.destinations| == 1
    ensures PostAll(c, Postings(plan)) ==
              var r := Post(c, plan.sources[0]);
              if r.Err? then r else Post(r.value, plan.destinations[0])
  {
    var p, q := plan.sources[0], plan.destinations[0];
    assert Postings(plan) == [p] + [q] && [q] == [q] + [];
    PostAllCons(c, p, [q]);
    if Post(c, p).Ok? {
      PostAllCons(Post(c, p).value, q, []);
    }
  }

  // ---------- order ----------

  ghost predicate Solvent(c: Catalog) { forall id :: id in c ==> NonNegative(c[id]) }

  /** Two outcomes agree: both refused, or both applied with the same balances. */
  predicate Agree(r: Result<Catalog>, s: Result<Catalog>) {
    r.Ok? == s.Ok? && (r.Ok? ==> r.value == s.value)
  }

  /** Postings to one balance are of one kind. */
  predicate Alike(p: Posting, q: Posting) {
    p.target.balanceId == q.target.balanceId ==> p.operation == q.operation && p.status == q.status
  }

  ghost predicate AllAlike(ps: seq<Posting>) {
    forall p, q :: p in ps && q in ps ==> Alike(p, q)
  }

  /** The part of a balance that a posting adds to is not negative after this posting alone. */
  predicate LiftsBalance(b: Balance, p: Posting) {
    match p.operation
    case Credit => b.available + p.amount >= 0.0
    case Release => b.available + p.amount >= 0.0
    case OnHold => b.onHold + p.amount >= 0.0
    case _ => true
  }

  predicate Lifts(c: Catalog, p: Posting) {
    var id := p.target.balanceId;
    id in c && Fits(c[id], p) ==> LiftsBalance(c[id], p)
  }

  ghost predicate AllLift(c: Catalog, ps: seq<Posting>) { forall p :: p in ps ==> Lifts(c, p) }

  lemma SolventLifts(c: Catalog, ps: seq<Posting>)
    requires Solvent(c)
    ensures AllLift(c, ps)
  {
  }

  /** A posting of the same kind leaves the part that grows no smaller. */
  lemma PostKeepsLift(c: Catalog, p: Posting, q: Posting)
    requires Post(c, p).Ok? && Alike(p, q) && Lifts(c, q)
    ensures Lifts(Post(c, p).value, q)
  {
  }

  /** Two postings of one kind to one balance, in either order. */
  lemma SameBalanceCommutes(b: Balance, p: Posting, q: Posting)
    requires p.operation == q.operation && p.status == q.status && LiftsBalance(b, q)
    requires ApplyPosting(b, p).Ok? && ApplyPosting(ApplyPosting(b, p).value, q).Ok?
    ensures ApplyPosting(b, q).Ok?
    ensures ApplyPosting(ApplyPosting(b, q).value, p) == ApplyPosting(ApplyPosting(b, p).value, q)
  {
  }

  lemma FitsStays(b: Balance, p: Posting, q: Posting)
    requires ApplyPosting(b, p).Ok?
    ensures Fits(ApplyPosting(b, p).value, q) <==> Fits(b, q)
  {
  }

  lemma SameBalancePair(c: Catalog, p: Posting, q: Posting)
    requires Alike(p, q) && Lifts(c, q) && p.target.balanceId == q.target.balanceId
    requires Post(c, p).Ok? && Post(Post(c, p).value, q).Ok?
    ensures Post(c, q).Ok? && Post(Post(c, q).value, p) == Post(Post(c, p).value, q)
  {
    var i := p.target.balanceId;
    FitsStays(c[i], p, q);
    SameBalanceCommutes(c[i], p, q);
    var d := ApplyPosting(ApplyPosting(c[i], p).value, q).value;
    assert c[i := ApplyPosting(c[i], p).value][i := d] == c[i := d] == c[i := ApplyPosting(c[i], q).value][i := d];
  }

  lemma OtherBalancePair(c: Catalog, p: Posting, q: Posting)
    requires p.target.balanceId != q.target.balanceId && Post(c, p).Ok? && Post(Post(c, p).value, q).Ok?
    ensures Post(c, q).Ok? && Post(Post(c, q).value, p) == Post(Post(c, p).value, q)
  {
    var i, j := p.target.balanceId, q.target.balanceId;
    var b, d := ApplyPosting(c[i], p).value, ApplyPosting(c[j], q).value;
    assert c[i := b][j := d] == c[j := d][i := b];
  }

  lemma PairCommutes(c: Catalog, p: Posting, q: Posting)
    requires Alike(p, q) && Lifts(c, q) && Post(c, p).Ok? && Post(Post(c, p).value, q).Ok?
    ensures Post(c, q).Ok? && Post(Post(c, q).value, p) == Post(Post(c, p).value, q)
  {
    if p.target.balanceId == q.target.balanceId {
      SameBalancePair(c, p, q);
    } else {
      OtherBalancePair(c, p, q);
    }
  }

  /** What applying a posting and then the rest gives. */
  lemma PostAllCons(c: Catalog, p: Posting, rest: seq<Posting>)
    ensures PostAll(c, [p] + rest) == if Post(c, p).Err? then Post(c, p) else PostAll(Post(c, p).value, rest)
  {
    assert ([p] + rest)[1..] == rest;
  }

  lemma SwapFirst(c: Catalog, p: Posting, q: Posting, rest: seq<Posting>)
    requires Alike(p, q) && Lifts(c, p) && Lifts(c, q)
    ensures Agree(PostAll(c, [p] + ([q] + rest)), PostAll(c, [q] + ([p] + rest)))
  {
    PostAllCons(c, p, [q] + rest);
    PostAllCons(c, q, [p] + rest);
    if Post(c, p).Ok? {
      PostAllCons(Post(c, p).value, q, rest);
      if Post(Post(c, p).value, q).Ok? {
        PairCommutes(c, p, q);
      }
    }
    if Post(c, q).Ok? {
      PostAllCons(Post(c, q).value, p, rest);
      if Post(Post(c, q).value, p).Ok? {
        PairCommutes(c, q, p);
      }
    }
  }

  function Without(ps: seq<Posting>, i: nat): (rest: seq<Posting>)
    requires i < |ps|
    ensures forall p :: p in rest ==> p in ps
  {
    ps[..i] + ps[i + 1..]
  }

  lemma KeepsLift(c: Catalog, p: Posting, rest: seq<Posting>)
    requires Post(c, p).Ok? && AllAlike([p] + rest) && AllLift(c, rest)
    ensures AllLift(Post(c, p).value, rest)
  {
    forall q | q in rest ensures Lifts(Post(c, p).value, q) {
      assert p in [p] + rest && q in [p] + rest;
      PostKeepsLift(c, p, q);
    }
  }

  lemma {:induction false} MoveToFront(c: Catalog, ps: seq<Posting>, i: nat)
    requires AllAlike(ps) && AllLift(c, ps) && i < |ps|
    ensures Agree(PostAll(c, ps), PostAll(c, [ps[i]] + Without(ps, i)))
    decreases |ps|
  {
    var p, tail := ps[0], ps[1..];
    assert ps == [p] + tail;
    if i == 0 {
      assert Without(ps, i) == tail;
    } else {
      var rest := Without(tail, i - 1);
      assert Without(ps, i) == [p] + rest;
      assert tail[i - 1] == ps[i];
      PostAllCons(c, p, tail);
      PostAllCons(c, p, [ps[i]] + rest);
      if Post(c, p).Ok? {
        KeepsLift(c, p, tail);
        MoveToFront(Post(c, p).value, tail, i - 1);
      }
      SwapFirst(c, p, ps[i], rest);
    }
  }

  lemma WithoutMultiset(ps: seq<Posting>, i: nat)
    requires i < |ps|
    ensures multiset(Without(ps, i)) == multiset(ps) - multiset{ps[i]}
  {
    assert ps == ps[..i] + [ps[i]] + ps[i + 1..];
  }

  /** A list and its permutation that starts with q, without q. */
  lemma FindFirst(ps: seq<Posting>, q: Posting, tail: seq<Posting>) returns (i: nat)
    requires multiset(ps) == multiset([q] + tail)
    ensures i < |ps| && ps[i] == q && multiset(Without(ps, i)) == multiset(tail)
  {
    assert q in multiset([q] + tail);
    i :| 0 <= i < |ps| && ps[i] == q;
    WithoutMultiset(ps, i);
    assert multiset(tail) == multiset([q] + tail) - multiset{q};
  }

  /** When every posting alone lifts the part it adds to, whether postings of one kind per balance
      all apply, and what they leave, is the same in every order. */
  lemma {:induction false} OrderIsIrrelevant(c: Catalog, ps: seq<Posting>, qs: seq<Posting>)
    requires AllLift(c, ps) && AllAlike(ps) && multiset(ps) == multiset(qs)
    ensures Agree(PostAll(c, ps), PostAll(c, qs))
    decreases |qs|
  {
    if qs == [] {
      assert |multiset(ps)| == 0;
    } else {
      var q, tail := qs[0], qs[1..];
      assert qs == [q] + tail;
      var i := FindFirst(ps, q, tail);
      var rest := Without(ps, i);
      MoveToFront(c, ps, i);
      PostAllCons(c, q, rest);
      PostAllCons(c, q, tail);
      if Post(c, q).Ok? {
        KeepsLift(c, q, rest);
        OrderIsIrrelevant(Post(c, q).value, rest, tail);
      }
    }
  }

  /** Every order of the postings has the same outcome. */
  ghost predicate AnyOrder(c: Catalog, ps: seq<Posting>) {
    forall qs :: multiset(qs) == multiset(ps) ==> Agree(PostAll(c, ps), PostAll(c, qs))
  }

  /** A posting that does not lift the part it adds to cannot go first. */
  lemma UnliftedFailsFirst(c: Catalog, ps: seq<Posting>, i: nat)
    requires i < |ps| && !Lifts(c, ps[i])
    ensures PostAll(c, [ps[i]] + Without(ps, i)).Err?
    ensures multiset([ps[i]] + Without(ps, i)) == multiset(ps)
  {
    var p, rest := ps[i], Without(ps, i);
    PostAllCons(c, p, rest);
    WithoutMultiset(ps, i);
    assert multiset([p] + rest) == multiset{p} + multiset(rest);
  }

  /** When the order matters, exactly: if postings of one kind per balance apply in some order, they
      apply in every order with the same balances if and only if each of them by itself lifts the
      part it adds to (available for a credit or release, on-hold for a hold) to zero or more. */
  lemma OrderIsIrrelevantIff(c: Catalog, ps: seq<Posting>)
    requires AllAlike(ps) && PostAll(c, ps).Ok?
    ensures AnyOrder(c, ps) <==> AllLift(c, ps)
  {
    if AllLift(c, ps) {
      forall qs | multiset(qs) == multiset(ps) ensures Agree(PostAll(c, ps), PostAll(c, qs)) {
        OrderIsIrrelevant(c, ps, qs);
      }
    } else {
      var i :| 0 <= i < |ps| && !Lifts(c, ps[i]);
      UnliftedFailsFirst(c, ps, i);
    }
  }

  lemma SameMembers(c: Catalog, ps: seq<Posting>, qs: seq<Posting>)
    requires multiset(ps) == multiset(qs)
    ensures AllAlike(ps) ==> AllAlike(qs)
    ensures AllLift(c, ps) <==> AllLift(c, qs)
  {
    forall p ensures p in ps <==> p in qs {
      assert p in multiset(ps) <==> p in multiset(qs);
    }
  }

  lemma PlanIsAlike(x: Intent, status: Status, plan: Plan)
    requires PlanOf(x, status, plan)
    ensures AllAlike(Postings(plan))
  {
    var source, destination := PlanShape(x, status, plan);
    forall p, q | p in Postings(plan) && q in Postings(plan) ensures Alike(p, q) {
      if p in plan.sources && q in plan.destinations {
        assert p.target in PostingTargets(plan.sources) && q.target in PostingTargets(plan.destinations);
      }
      if q in plan.sources && p in plan.destinations {
        assert q.target in PostingTargets(plan.sources) && p.target in PostingTargets(plan.destinations);
      }
    }
  }

  /** Starting from balances that are not negative, the order of the postings of a plan is irrelevant. */
  lemma PlanOrderIsIrrelevant(x: Intent, status: Status, plan: Plan, c: Catalog, qs: seq<Posting>)
    requires PlanOf(x, status, plan) && Solvent(c) && multiset(qs) == multiset(Postings(plan))
    ensures Agree(PostAll(c, Postings(plan)), PostAll(c, qs))
  {
    PlanIsAlike(x, status, plan);
    SolventLifts(c, Postings(plan));
    OrderIsIrrelevant(c, Postings(plan), qs);
  }

  /** Starting from any balances that some order suits, it is irrelevant exactly when every posting lifts. */
  lemma PlanOrderIsIrrelevantIff(x: Intent, status: Status, plan: Plan, c: Catalog, ps: seq<Posting>)
    requires PlanOf(x, status, plan) && multiset(ps) == multiset(Postings(plan)) && PostAll(c, ps).Ok?
    ensures AnyOrder(c, ps) <==> AllLift(c, Postings(plan))
  {
    PlanIsAlike(x, status, plan);
    SameMembers(c, Postings(plan), ps);
    OrderIsIrrelevantIff(c, ps);
  }

  /** From a negative balance the order can matter: a credit that leaves it negative is refused. */
  lemma NegativeBalanceDependsOnOrder()
    ensures exists c: Catalog, p, q :: Alike(p, q) && PostAll(c, [p, q]).Err? && PostAll(c, [q, p]).Ok?
  {
    var t := Target("a", "b");
    var p := Posting(t, "BRL", 5.0, Credit, Created, "");
    var q := p.(amount := 10.0);
    var c: Catalog := map["b" := Balance("b", "a", "BRL", -7.0, 0.0, 0)];
    assert !Blank("a") && !Blank("b") by {
      assert !IsSpace("a"[0]) && !IsSpace("b"[0]);
    }
    PostAllCons(c, p, [q]);
    PostAllCons(c, q, [p]);
    PostAllCons(Post(c, q).value, p, []);
    assert [p, q] == [p] + [q] && [q, p] == [q] + [p];
    assert Alike(p, q) && PostAll(c, [p, q]).Err? && PostAll(c, [q, p]).Ok?;
  }
}
