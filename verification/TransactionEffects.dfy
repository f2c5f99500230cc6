/** What a plan does to each balance: how much every balance gains and loses, and when a whole plan
    can be applied. */
module TransactionEffects {
  import opened Transaction
  import opened TransactionPlan
  import opened TransactionLedger

  /** The part of a posting's amount that the balance sees. */
  function Part(p: Posting, id: string): real { if p.target.balanceId == id then p.amount else 0.0 }

  /** The amount of each posting that goes to the given balance. */
  function Parts(ps: seq<Posting>, id: string): (xs: seq<real>)
    ensures |xs| == |ps| && forall i :: 0 <= i < |ps| ==> xs[i] == Part(ps[i], id)
  {
    seq(|ps|, i requires 0 <= i < |ps| => Part(ps[i], id))
  }

  lemma PartsCons(p: Posting, rest: seq<Posting>, id: string)
    ensures Total(Parts([p] + rest, id)) == Part(p, id) + Total(Parts(rest, id))
  {
    assert Parts([p] + rest, id) == [Part(p, id)] + Parts(rest, id);
    TotalAppend([Part(p, id)], Parts(rest, id));
    TotalSnoc([], Part(p, id));
    assert [] + [Part(p, id)] == [Part(p, id)];
  }

  lemma PartsWith(ps: seq<Posting>, p: Posting, id: string)
    ensures Total(Parts(ps + [p], id)) == Total(Parts(ps, id)) + Part(p, id)
  {
    assert Parts(ps + [p], id) == Parts(ps, id) + [Part(p, id)];
    TotalSnoc(Parts(ps, id), Part(p, id));
  }

  /** Same balances of the same accounts and assets. */
  ghost predicate SameAccounts(c: Catalog, d: Catalog) {
    c.Keys == d.Keys && forall id, p :: id in c ==> (Fits(c[id], p) <==> Fits(d[id], p))
  }

  lemma PostKeepsAccounts(c: Catalog, p: Posting)
    requires Post(c, p).Ok? && Solvent(c)
    ensures SameAccounts(c, Post(c, p).value) && Solvent(Post(c, p).value)
  {
    var id := p.target.balanceId;
    forall q ensures Fits(Post(c, p).value[id], q) <==> Fits(c[id], q) {
      FitsStays(c[id], p, q);
    }
  }

  lemma SameAccountsCompose(c: Catalog, d: Catalog, e: Catalog)
    requires SameAccounts(c, d) && SameAccounts(d, e)
    ensures SameAccounts(c, e)
  {
  }

  predicate Creditable(c: Catalog, p: Posting) {
    && p.operation == Credit && (p.status == Created || p.status == Approved || p.status == Pending)
    && p.target.balanceId in c && Fits(c[p.target.balanceId], p)
  }

  lemma {:induction false} CreditsApply(c: Catalog, ps: seq<Posting>)
    requires Solvent(c) && forall p :: p in ps ==> Creditable(c, p)
    ensures PostAll(c, ps).Ok?
    decreases |ps|
  {
    if ps != [] {
      assert Creditable(c, ps[0]);
      PostKeepsAccounts(c, ps[0]);
      forall p | p in ps[1..] ensures Creditable(Post(c, ps[0]).value, p) {
        assert p in ps;
      }
      CreditsApply(Post(c, ps[0]).value, ps[1..]);
    }
  }

  lemma {:induction false} PostAllAppend(c: Catalog, ps: seq<Posting>, qs: seq<Posting>)
    requires PostAll(c, ps).Ok?
    ensures PostAll(c, ps + qs) == PostAll(PostAll(c, ps).value, qs)
    decreases |ps|
  {
    if ps == [] {
      assert ps + qs == qs;
    } else {
      PostAllAppend(Post(c, ps[0]).value, ps[1..], qs);
      assert (ps + qs)[1..] == ps[1..] + qs;
    }
  }

  // ---------- one side ----------

  /** How many postings go to the given balance. */
  function Hits(ps: seq<Posting>, id: string): nat
    decreases |ps|
  {
    if ps == [] then 0 else Hit(ps[0], id) + Hits(ps[1..], id)
  }

  /** Between two states of a balance, its parts changed by these amounts in so many postings. */
  predicate Moved(b: Balance, d: Balance, available: real, onHold: real, postings: int) {
    && d.id == b.id && d.accountId == b.accountId && d.asset == b.asset
    && d.available == b.available + available && d.onHold == b.onHold + onHold && d.version == b.version + postings
  }

  function Hit(p: Posting, id: string): nat { if p.target.balanceId == id then 1 else 0 }

  /** The operation and status of source postings. */
  predicate Draws(op: Operation, status: Status) {
    (op == OnHold && status == Pending) || (op == Debit && (status == Created || status == Approved))
  }

  /** Where source postings draw from, and whether they put it on hold. */
  predicate SourceMoved(b: Balance, d: Balance, status: Status, spent: real, postings: int) {
    match status
    case Created => Moved(b, d, -spent, 0.0, postings)
    case Pending => Moved(b, d, -spent, spent, postings)
    case Approved => Moved(b, d, 0.0, -spent, postings)
    case _ => false
  }

  lemma SourcePosted(c: Catalog, p: Posting, id: string)
    requires Draws(p.operation, p.status) && Post(c, p).Ok? && id in c
    ensures id in Post(c, p).value && SourceMoved(c[id], Post(c, p).value[id], p.status, Part(p, id), Hit(p, id))
  {
  }

  lemma CreditPosted(c: Catalog, p: Posting, id: string)
    requires p.operation == Credit && Post(c, p).Ok? && id in c
    ensures id in Post(c, p).value && Moved(c[id], Post(c, p).value[id], Part(p, id), 0.0, Hit(p, id))
  {
  }

  lemma SourceMovedOn(b: Balance, d: Balance, e: Balance, status: Status, first: real, rest: real, m: int, n: int)
    requires SourceMoved(b, d, status, first, m) && SourceMoved(d, e, status, rest, n)
    ensures SourceMoved(b, e, status, first + rest, m + n)
  {
  }

  /** The sources of a plan: direct debits leave the available part, holds move from there to the on-hold
      part, and debits on approval leave the on-hold part. */
  lemma {:induction false} SourcesMove(c: Catalog, ps: seq<Posting>, op: Operation, status: Status, id: string)
    requires Uniform(ps, op, status) && Draws(op, status) && PostAll(c, ps).Ok? && id in c
    ensures id in PostAll(c, ps).value
    ensures SourceMoved(c[id], PostAll(c, ps).value[id], status, Total(Parts(ps, id)), Hits(ps, id))
    decreases |ps|
  {
    if ps != [] {
      var p, rest := ps[0], ps[1..];
      assert ps == [p] + rest;
      SourcePosted(c, p, id);
      var d := Post(c, p).value;
      SourcesMove(d, rest, op, status, id);
      PartsCons(p, rest, id);
      SourceMovedOn(c[id], d[id], PostAll(d, rest).value[id], status, Part(p, id), Total(Parts(rest, id)),
                    Hit(p, id), Hits(rest, id));
    }
  }

  lemma {:induction false} CreditsMove(c: Catalog, ps: seq<Posting>, status: Status, id: string)
    requires Uniform(ps, Credit, status) && PostAll(c, ps).Ok? && id in c
    ensures id in PostAll(c, ps).value
    ensures Moved(c[id], PostAll(c, ps).value[id], Total(Parts(ps, id)), 0.0, Hits(ps, id))
    decreases |ps|
  {
    if ps != [] {
      var p, rest := ps[0], ps[1..];
      assert ps == [p] + rest;
      CreditPosted(c, p, id);
      CreditsMove(Post(c, p).value, rest, status, id);
      PartsCons(p, rest, id);
    }
  }

  // ---------- a whole plan ----------

  lemma {:induction false} PostAllSplits(c: Catalog, ps: seq<Posting>, qs: seq<Posting>)
    requires PostAll(c, ps + qs).Ok?
    ensures PostAll(c, ps).Ok? && PostAll(PostAll(c, ps).value, qs) == PostAll(c, ps + qs)
    decreases |ps|
  {
    if ps == [] {
      assert ps + qs == qs;
    } else {
      assert (ps + qs)[1..] == ps[1..] + qs;
      PostAllSplits(Post(c, ps[0]).value, ps[1..], qs);
    }
  }

  lemma BothSidesMove(c: Catalog, ps: seq<Posting>, qs: seq<Posting>, op: Operation, status: Status, id: string)
    requires Uniform(ps, op, status) && Draws(op, status) && Uniform(qs, Credit, status)
    requires PostAll(c, ps + qs).Ok? && id in c
    ensures id in PostAll(c, ps + qs).value
    ensures var spent, gained := Total(Parts(ps, id)), Total(Parts(qs, id));
            var available := if status == Approved then gained else gained - spent;
            var onHold := if status == Created then 0.0 else if status == Pending then spent else -spent;
            Moved(c[id], PostAll(c, ps + qs).value[id], available, onHold, Hits(ps, id) + Hits(qs, id))
  {
    PostAllSplits(c, ps, qs);
    SourcesMove(c, ps, op, status, id);
    CreditsMove(PostAll(c, ps).value, qs, status, id);
  }

  /** What applying a plan does to any balance of the catalog.  CREATED: the amounts of its source
      postings leave the available part and those of its destination postings enter it.  PENDING: the
      source amounts go from available to on hold.  APPROVED: they leave the on-hold part. */
  lemma PlanMoves(x: Intent, status: Status, plan: Plan, c: Catalog, id: string)
    requires PlanOf(x, status, plan) && PostAll(c, Postings(plan)).Ok? && id in c
    ensures id in PostAll(c, Postings(plan)).value
    ensures var spent, gained := Total(Parts(plan.sources, id)), Total(Parts(plan.destinations, id));
            var available := if status == Approved then gained else gained - spent;
            var onHold := if status == Created then 0.0 else if status == Pending then spent else -spent;
            Moved(c[id], PostAll(c, Postings(plan)).value[id], available, onHold,
                  Hits(plan.sources, id) + Hits(plan.destinations, id))
  {
    PlanConserves(x, status, plan, c);
    var source, destination := PlanShape(x, status, plan);
    BothSidesMove(c, plan.sources, plan.destinations, source, status, id);
  }

  // ---------- when a whole plan applies ----------

  /** The part of a balance that source postings of this status draw on. */
  function Drawable(b: Balance, status: Status): real { if status == Approved then b.onHold else b.available }

  ghost predicate AllFit(c: Catalog, ps: seq<Posting>) {
    forall p :: p in ps ==> p.target.balanceId in c && Fits(c[p.target.balanceId], p)
  }

  ghost predicate AllFunded(c: Catalog, ps: seq<Posting>, status: Status) {
    forall id :: id in c ==> Total(Parts(ps, id)) <= Drawable(c[id], status)
  }

  lemma DrawLowers(c: Catalog, p: Posting, id: string)
    requires Draws(p.operation, p.status) && Post(c, p).Ok? && id in c
    ensures id in Post(c, p).value
    ensures Drawable(Post(c, p).value[id], p.status) ==
              Drawable(c[id], p.status) - Part(p, id)
  {
  }

  lemma FirstDraws(c: Catalog, p: Posting, rest: seq<Posting>)
    requires Solvent(c) && Draws(p.operation, p.status) && AllFit(c, [p] + rest)
    requires AllFunded(c, [p] + rest, p.status)
    ensures Post(c, p).Ok?
  {
    var id := p.target.balanceId;
    assert p in [p] + rest;
    PartsCons(p, rest, id);
    var xs := Parts(rest, id);
    forall k | 0 <= k < |xs| ensures xs[k] >= 0.0 {
      assert rest[k] in [p] + rest;
    }
    TotalNonNegative(xs);
    PostingApplies(c[id], p);
  }

  lemma RestFunded(c: Catalog, p: Posting, rest: seq<Posting>)
    requires Draws(p.operation, p.status) && Post(c, p).Ok?
    ensures AllFunded(Post(c, p).value, rest, p.status) <==> AllFunded(c, [p] + rest, p.status)
  {
    var d := Post(c, p).value;
    forall id | id in c
      ensures Total(Parts(rest, id)) <= Drawable(d[id], p.status) <==>
              Total(Parts([p] + rest, id)) <= Drawable(c[id], p.status)
    {
      DrawLowers(c, p, id);
      PartsCons(p, rest, id);
    }
  }

  lemma RestFits(c: Catalog, p: Posting, rest: seq<Posting>)
    requires Solvent(c) && Post(c, p).Ok?
    ensures AllFit(Post(c, p).value, rest) <==> AllFit(c, [p] + rest)
  {
    PostKeepsAccounts(c, p);
    assert forall q :: q in [p] + rest <==> q == p || q in rest;
  }

  /** The source postings of a plan apply exactly if each fits its balance and together they draw no
      more from any balance than it has. */
  lemma {:induction false} SourcesApply(c: Catalog, ps: seq<Posting>, op: Operation, status: Status)
    requires Solvent(c) && Uniform(ps, op, status) && Draws(op, status)
    ensures PostAll(c, ps).Ok? <==> AllFit(c, ps) && AllFunded(c, ps, status)
    ensures PostAll(c, ps).Ok? ==> Solvent(PostAll(c, ps).value) && SameAccounts(c, PostAll(c, ps).value)
    decreases |ps|
  {
    if ps == [] {
      assert forall id :: id in c ==> Parts(ps, id) == [];
    } else {
      var p, rest := ps[0], ps[1..];
      assert ps == [p] + rest;
      if AllFit(c, ps) && AllFunded(c, ps, status) {
        FirstDraws(c, p, rest);
      }
      if Post(c, p).Ok? {
        PostKeepsAccounts(c, p);
        RestFunded(c, p, rest);
        RestFits(c, p, rest);
        SourcesApply(Post(c, p).value, rest, op, status);
        if PostAll(c, ps).Ok? {
          SameAccountsCompose(c, Post(c, p).value, PostAll(c, ps).value);
        }
      }
    }
  }

  lemma {:induction false} AppliedFits(c: Catalog, ps: seq<Posting>)
    requires Solvent(c) && PostAll(c, ps).Ok?
    ensures AllFit(c, ps)
    decreases |ps|
  {
    if ps != [] {
      assert ps == [ps[0]] + ps[1..];
      PostKeepsAccounts(c, ps[0]);
      AppliedFits(Post(c, ps[0]).value, ps[1..]);
      RestFits(c, ps[0], ps[1..]);
    }
  }

  lemma CreditSide(c: Catalog, ps: seq<Posting>, status: Status)
    requires Solvent(c) && Uniform(ps, Credit, status) && (status == Created || status == Pending || status == Approved)
    ensures PostAll(c, ps).Ok? <==> AllFit(c, ps)
  {
    if AllFit(c, ps) {
      forall p | p in ps ensures Creditable(c, p) {
        var i :| 0 <= i < |ps| && ps[i] == p;
      }
      CreditsApply(c, ps);
    } else if PostAll(c, ps).Ok? {
      AppliedFits(c, ps);
    }
  }

  lemma FitsElsewhere(c: Catalog, d: Catalog, ps: seq<Posting>)
    requires SameAccounts(c, d)
    ensures AllFit(c, ps) <==> AllFit(d, ps)
  {
  }

  lemma BothSidesApply(c: Catalog, ps: seq<Posting>, qs: seq<Posting>, op: Operation, status: Status)
    requires Solvent(c) && Uniform(ps, op, status) && Draws(op, status) && Uniform(qs, Credit, status)
    ensures PostAll(c, ps + qs).Ok? <==> AllFit(c, ps) && AllFit(c, qs) && AllFunded(c, ps, status)
  {
    SourcesApply(c, ps, op, status);
    if PostAll(c, ps + qs).Ok? {
      PostAllSplits(c, ps, qs);
    }
    if PostAll(c, ps).Ok? {
      var d := PostAll(c, ps).value;
      PostAllAppend(c, ps, qs);
      CreditSide(d, qs, status);
      FitsElsewhere(c, d, qs);
    }
  }

  /** A plan that is not canceled applies as a whole exactly if every posting fits its balance and no
      balance is asked for more than it has: available funds, or held ones on approval. */
  lemma PlanApplies(x: Intent, status: Status, plan: Plan, c: Catalog)
    requires PlanOf(x, status, plan) && status != Canceled && Solvent(c)
    ensures PostAll(c, Postings(plan)).Ok? <==>
              AllFit(c, plan.sources) && AllFit(c, plan.destinations) && AllFunded(c, plan.sources, status)
  {
    var source, destination := PlanShape(x, status, plan);
    BothSidesApply(c, plan.sources, plan.destinations, source, status);
  }
}
