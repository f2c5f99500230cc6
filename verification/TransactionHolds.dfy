/** Holds over a whole catalog: however postings of other transactions interleave, what was put on hold
    for a pending transaction is there when it is approved. */
module TransactionHolds {
  import opened Transaction
  import opened TransactionPlan
  import opened TransactionLedger
  import opened TransactionEffects

  /** A catalog and the hold postings that were granted and not settled yet. */
  datatype Book = Book(catalog: Catalog, open: seq<Posting>)

  /** One posting: any that settles no hold, or one that settles the i-th open hold. */
  datatype Entry = Other(posting: Posting) | Settlement(posting: Posting, i: nat)

  predicate SettlesHold(p: Posting, hold: Posting) {
    Settles(p) && p.target == hold.target && p.asset == hold.asset && p.amount == hold.amount
  }

  predicate Admits(b: Book, e: Entry) {
    match e
    case Other(p) => !Settles(p)
    case Settlement(p, i) => i < |b.open| && SettlesHold(p, b.open[i])
  }

  /** A posting that is refused changes nothing. */
  function Enter(b: Book, e: Entry): Book
    requires Admits(b, e)
  {
    var r := Post(b.catalog, e.posting);
    if r.Err? then b
    else if e.Settlement? then Book(r.value, Without(b.open, e.i))
    else if e.posting.operation == OnHold then Book(r.value, b.open + [e.posting])
    else Book(r.value, b.open)
  }

  /** Any interleaving of postings, from a catalog without negative balances and open holds. */
  ghost predicate IsHistory(books: seq<Book>, entries: seq<Entry>) {
    && |books| == |entries| + 1 && books[0].open == [] && Solvent(books[0].catalog)
    && forall k :: 0 <= k < |entries| ==> Admits(books[k], entries[k]) && books[k + 1] == Enter(books[k], entries[k])
  }

  // ---------- the on-hold part covers the open holds ----------

  predicate Stands(c: Catalog, hold: Posting) {
    hold.target.balanceId in c && Fits(c[hold.target.balanceId], hold) && hold.operation == OnHold
  }

  ghost predicate Covers(c: Catalog, open: seq<Posting>) {
    forall id :: id in c ==> c[id].onHold >= Total(Parts(open, id))
  }

  ghost predicate Sound(b: Book) {
    Solvent(b.catalog) && Covers(b.catalog, b.open) && forall h :: h in b.open ==> Stands(b.catalog, h)
  }

  lemma PartsWithout(open: seq<Posting>, i: nat, id: string)
    requires i < |open|
    ensures Total(Parts(Without(open, i), id)) == Total(Parts(open, id)) - Parts(open, id)[i]
  {
    var xs := Parts(open, id);
    assert Parts(Without(open, i), id) == xs[..i] + xs[i + 1..];
    TotalRemove(xs, i);
  }

  lemma EnterKeepsCovers(b: Book, e: Entry, id: string)
    requires Covers(b.catalog, b.open) && Admits(b, e) && Post(b.catalog, e.posting).Ok? && id in b.catalog
    ensures id in Enter(b, e).catalog && Enter(b, e).catalog[id].onHold >= Total(Parts(Enter(b, e).open, id))
  {
    var p := e.posting;
    PostingOnHold(b.catalog[p.target.balanceId], p);
    if e.Settlement? {
      PartsWithout(b.open, e.i, id);
    } else {
      PartsWith(b.open, p, id);
    }
  }

  lemma HoldsStand(b: Book, e: Entry)
    requires Sound(b) && Admits(b, e) && Post(b.catalog, e.posting).Ok?
    requires SameAccounts(b.catalog, Post(b.catalog, e.posting).value)
    ensures forall h :: h in Enter(b, e).open ==> Stands(Enter(b, e).catalog, h)
  {
    forall h | h in Enter(b, e).open ensures Stands(Enter(b, e).catalog, h) {
      assert h in b.open || (h == e.posting && h.operation == OnHold);
    }
  }

  lemma EnterKeepsSound(b: Book, e: Entry)
    requires Sound(b) && Admits(b, e)
    ensures Sound(Enter(b, e)) && SameAccounts(b.catalog, Enter(b, e).catalog)
  {
    if Post(b.catalog, e.posting).Ok? {
      PostKeepsAccounts(b.catalog, e.posting);
      forall id | id in b.catalog ensures Enter(b, e).catalog[id].onHold >= Total(Parts(Enter(b, e).open, id)) {
        EnterKeepsCovers(b, e, id);
      }
      HoldsStand(b, e);
    }
  }

  lemma StartIsSound(b: Book)
    requires b.open == [] && Solvent(b.catalog)
    ensures Sound(b)
  {
  }

  lemma {:induction false} HistoryIsSound(books: seq<Book>, entries: seq<Entry>, n: nat)
    requires IsHistory(books, entries) && n < |books|
    ensures Sound(books[n])
  {
    if n == 0 {
      StartIsSound(books[0]);
    } else {
      HistoryIsSound(books, entries, n - 1);
      EnterKeepsSound(books[n - 1], entries[n - 1]);
    }
  }

  lemma EntryKeepsAccounts(books: seq<Book>, entries: seq<Entry>, n: nat)
    requires IsHistory(books, entries) && n < |entries|
    ensures SameAccounts(books[n].catalog, books[n + 1].catalog)
  {
    HistoryIsSound(books, entries, n);
    EnterKeepsSound(books[n], entries[n]);
  }

  lemma {:induction false} SameAccountsStay(cs: seq<Catalog>, m: nat, n: nat)
    requires m <= n < |cs| && forall k :: 0 <= k < |cs| - 1 ==> SameAccounts(cs[k], cs[k + 1])
    ensures SameAccounts(cs[m], cs[n])
  {
    if m < n {
      SameAccountsStay(cs, m, n - 1);
      assert SameAccounts(cs[n - 1], cs[n - 1 + 1]);
      SameAccountsCompose(cs[m], cs[n - 1], cs[n]);
    }
  }

  lemma AccountsStay(books: seq<Book>, entries: seq<Entry>, m: nat, n: nat)
    requires IsHistory(books, entries) && m <= n < |books|
    ensures SameAccounts(books[m].catalog, books[n].catalog)
  {
    var cs := seq(|books|, i requires 0 <= i < |books| => books[i].catalog);
    forall k | 0 <= k < |cs| - 1 ensures SameAccounts(cs[k], cs[k + 1]) {
      EntryKeepsAccounts(books, entries, k);
    }
    SameAccountsStay(cs, m, n);
  }

  // ---------- settling ----------

  lemma HoldIsCovered(b: Book, i: nat)
    requires Sound(b) && i < |b.open|
    ensures Stands(b.catalog, b.open[i]) && b.open[i].amount <= b.catalog[b.open[i].target.balanceId].onHold
  {
    var h := b.open[i];
    assert h in b.open;
    var xs := Parts(b.open, h.target.balanceId);
    forall k | 0 <= k < |xs| ensures xs[k] >= 0.0 {
      assert b.open[k] in b.open;
    }
    MemberBelowTotal(xs, i);
  }

  /** A settlement of an open hold is never refused. */
  lemma SettlementApplies(b: Book, p: Posting, i: nat)
    requires Sound(b) && i < |b.open| && SettlesHold(p, b.open[i])
    ensures Post(b.catalog, p).Ok?
  {
    HoldIsCovered(b, i);
  }

  /** The postings settle the holds, one by one. */
  ghost predicate SettleEach(ps: seq<Posting>, holds: seq<Posting>) {
    |ps| == |holds| && forall k :: 0 <= k < |ps| ==> SettlesHold(ps[k], holds[k])
  }

  lemma PickHold(open: seq<Posting>, holds: seq<Posting>) returns (i: nat)
    requires holds != [] && multiset(holds) <= multiset(open)
    ensures i < |open| && open[i] == holds[0] && multiset(holds[1..]) <= multiset(Without(open, i))
  {
    assert holds == [holds[0]] + holds[1..];
    assert holds[0] in multiset(holds);
    assert holds[0] in multiset(open);
    i :| 0 <= i < |open| && open[i] == holds[0];
    WithoutMultiset(open, i);
  }

  lemma SettleFirst(b: Book, p: Posting, holds: seq<Posting>) returns (next: Book)
    requires Sound(b) && holds != [] && SettlesHold(p, holds[0]) && multiset(holds) <= multiset(b.open)
    ensures Post(b.catalog, p) == Ok(next.catalog) && Sound(next) && SameAccounts(b.catalog, next.catalog)
    ensures multiset(holds[1..]) <= multiset(next.open)
  {
    var i := PickHold(b.open, holds);
    SettlementApplies(b, p, i);
    next := Enter(b, Settlement(p, i));
    EnterKeepsSound(b, Settlement(p, i));
  }

  /** Open holds can all be settled, one after the other. */
  lemma {:induction false} SettlementsApply(b: Book, ps: seq<Posting>, holds: seq<Posting>)
    requires Sound(b) && SettleEach(ps, holds) && multiset(holds) <= multiset(b.open)
    ensures PostAll(b.catalog, ps).Ok? && Solvent(PostAll(b.catalog, ps).value)
    ensures SameAccounts(b.catalog, PostAll(b.catalog, ps).value)
    decreases |ps|
  {
    if ps != [] {
      var next := SettleFirst(b, ps[0], holds);
      SettlementsApply(next, ps[1..], holds[1..]);
      SameAccountsCompose(b.catalog, next.catalog, PostAll(b.catalog, ps).value);
    }
  }

  // ---------- the two stages of one intent ----------

  /** Lists with the same total that differ in one place at most do not differ. */
  lemma EqualButOne(xs: seq<real>, ys: seq<real>, r: nat)
    requires |xs| == |ys| && r < |xs| && Total(xs) == Total(ys)
    requires forall i :: 0 <= i < |xs| && i != r ==> xs[i] == ys[i]
    ensures xs == ys
  {
    assert ys == xs[r := ys[r]];
    TotalUpdate(xs, r, ys[r]);
  }

  /** A fixed amount depends on the allocation and the total only. */
  lemma FixedAmount(s: Side, t: Side, a: Allocation)
    requires ValidAllocation(s, a) && ValidAllocation(t, a) && s.total == t.total
    ensures BuildPosting(s, a).value.amount == BuildPosting(t, a).value.amount
  {
  }

  lemma FixedAmountsAgree(s: Side, t: Side, allocs: seq<Allocation>, ps: seq<Posting>, qs: seq<Posting>, i: nat)
    requires Follows(s, allocs, ps) && Follows(t, allocs, qs) && s.total == t.total
    requires i < |allocs| && !allocs[i].remainder
    ensures ps[i].amount == qs[i].amount
  {
    FixedAmount(s, t, allocs[i]);
  }

  /** Two sides built from the same allocations for the same total have the same amounts. */
  lemma SameAmounts(s: Side, t: Side, allocs: seq<Allocation>, ps: seq<Posting>, qs: seq<Posting>)
    requires Follows(s, allocs, ps) && Follows(t, allocs, qs) && s.total == t.total && OneRemainder(allocs)
    requires Total(Amounts(ps)) == Total(Amounts(qs))
    ensures Amounts(ps) == Amounts(qs)
  {
    var xs, ys := Amounts(ps), Amounts(qs);
    forall i | 0 <= i < |xs| && !allocs[i].remainder ensures xs[i] == ys[i] {
      FixedAmountsAgree(s, t, allocs, ps, qs, i);
    }
    if r :| 0 <= r < |allocs| && allocs[r].remainder {
      EqualButOne(xs, ys, r);
    }
  }

  lemma SameTargets(s: Side, t: Side, allocs: seq<Allocation>, ps: seq<Posting>, qs: seq<Posting>)
    requires Follows(s, allocs, ps) && Follows(t, allocs, qs) && s.asset == t.asset
    ensures |ps| == |qs| && forall i :: 0 <= i < |ps| ==> ps[i].target == qs[i].target && ps[i].asset == qs[i].asset
  {
  }

  /** The postings of two stages agree in everything but operation and status. */
  ghost predicate SameMoves(ps: seq<Posting>, qs: seq<Posting>) {
    && |ps| == |qs|
    && forall i :: 0 <= i < |ps| ==>
         ps[i].target == qs[i].target && ps[i].asset == qs[i].asset && ps[i].amount == qs[i].amount
  }

  lemma SidesMoveAlike(s: Side, t: Side, allocs: seq<Allocation>, ps: seq<Posting>, qs: seq<Posting>)
    requires Follows(s, allocs, ps) && Follows(t, allocs, qs) && s.total == t.total && s.asset == t.asset
    requires OneRemainder(allocs) && Total(Amounts(ps)) == Total(Amounts(qs))
    ensures SameMoves(ps, qs)
  {
    SameAmounts(s, t, allocs, ps, qs);
    SameTargets(s, t, allocs, ps, qs);
    assert forall i :: 0 <= i < |ps| ==> Amounts(ps)[i] == Amounts(qs)[i];
  }

  lemma DebitsSettle(debits: seq<Posting>, holds: seq<Posting>)
    requires SameMoves(holds, debits) && Uniform(debits, Debit, Approved)
    ensures SettleEach(debits, holds)
  {
  }

  /** The approved plan of an intent settles exactly the holds of its pending plan, and credits the
      destinations its pending plan credited. */
  lemma ApprovalMirrorsHolds(x: Intent, pending: Plan, approved: Plan)
    requires PlanOf(x, Pending, pending) && PlanOf(x, Approved, approved)
    ensures SettleEach(approved.sources, pending.sources)
    ensures SameMoves(pending.destinations, approved.destinations) && Uniform(approved.destinations, Credit, Approved)
  {
    var s, t := Side(x.asset, x.total, x.pending, Pending, true), Side(x.asset, x.total, x.pending, Approved, true);
    SidesMoveAlike(s, t, x.sources, pending.sources, approved.sources);
    s, t := s.(isSource := false), t.(isSource := false);
    SidesMoveAlike(s, t, x.destinations, pending.destinations, approved.destinations);
    var onHold, credited := PlanShape(x, Pending, pending);
    var source, destination := PlanShape(x, Approved, approved);
    DebitsSettle(approved.sources, pending.sources);
  }

  /** The posting was applied somewhere before entry n. */
  ghost predicate WasApplied(books: seq<Book>, entries: seq<Entry>, n: nat, p: Posting)
    requires |books| == |entries| + 1 && n <= |entries|
  {
    exists k :: 0 <= k < n && entries[k].posting == p && Post(books[k].catalog, p).Ok?
  }

  lemma AppliedStillFits(books: seq<Book>, entries: seq<Entry>, n: nat, p: Posting)
    requires IsHistory(books, entries) && n < |books| && WasApplied(books, entries, n, p)
    ensures p.target.balanceId in books[n].catalog && Fits(books[n].catalog[p.target.balanceId], p)
  {
    var k :| 0 <= k < n && entries[k].posting == p && Post(books[k].catalog, p).Ok?;
    AccountsStay(books, entries, k, n);
  }

  lemma CreditsStillApply(c: Catalog, pending: seq<Posting>, approved: seq<Posting>)
    requires Solvent(c) && SameMoves(pending, approved) && Uniform(approved, Credit, Approved)
    requires forall p :: p in pending ==> p.target.balanceId in c && Fits(c[p.target.balanceId], p)
    ensures PostAll(c, approved).Ok?
  {
    forall p | p in approved ensures Creditable(c, p) {
      var i :| 0 <= i < |approved| && approved[i] == p;
      assert pending[i] in pending;
    }
    CreditsApply(c, approved);
  }

  /** Once the pending plan of an intent was applied and as long as nobody else settled its holds, its
      approved plan applies as a whole, whatever other postings came between. */
  lemma ApprovalAlwaysApplies(x: Intent, pending: Plan, approved: Plan, books: seq<Book>, entries: seq<Entry>, n: nat)
    requires PlanOf(x, Pending, pending) && PlanOf(x, Approved, approved)
    requires IsHistory(books, entries) && n < |books|
    requires forall p :: p in pending.destinations ==> WasApplied(books, entries, n, p)
    requires multiset(pending.sources) <= multiset(books[n].open)
    ensures PostAll(books[n].catalog, Postings(approved)).Ok?
  {
    var c := books[n].catalog;
    HistoryIsSound(books, entries, n);
    ApprovalMirrorsHolds(x, pending, approved);
    SettlementsApply(books[n], approved.sources, pending.sources);
    var d := PostAll(c, approved.sources).value;
    forall p | p in pending.destinations ensures p.target.balanceId in d && Fits(d[p.target.balanceId], p) {
      AppliedStillFits(books, entries, n, p);
    }
    CreditsStillApply(d, pending.destinations, approved.destinations);
    PostAllAppend(c, approved.sources, approved.destinations);
  }
}
