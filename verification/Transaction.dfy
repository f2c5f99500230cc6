/** Transaction intents: splitting a total over allocations and posting the parts to balances.
    Decimals are exact; only the division of a share by one hundred rounds, to sixteen places. */
module Transaction {
  import opened Options
  import opened Text

  datatype Operation = Debit | Credit | OnHold | Release | OtherOperation

  datatype Status = Created | Approved | Pending | Canceled | OtherStatus

  datatype Error =
    | InsufficientFunds | AccountIneligibility | AssetCodeNotFound | ValueMismatch | Ambiguous
    | InvalidInput | InvalidStateTransition

  datatype Result<+T> = Ok(value: T) | Err(error: Error)

  datatype Target = Target(accountId: string, balanceId: string)

  datatype Balance = Balance(id: string, accountId: string, asset: string, available: real, onHold: real, version: int)

  datatype Allocation = Allocation(target: Target, amount: Option<real>, share: Option<real>,
                                    remainder: bool, route: string)

  datatype Posting = Posting(target: Target, asset: string, amount: real,
                              operation: Operation, status: Status, route: string)

  datatype Intent = Intent(asset: string, total: real, pending: bool,
                            sources: seq<Allocation>, destinations: seq<Allocation>)

  datatype Plan = Plan(asset: string, total: real, pending: bool, sources: seq<Posting>, destinations: seq<Posting>)

  predicate ValidTarget(t: Target) { !Blank(t.accountId) && !Blank(t.balanceId) }

  // ---------- posting to a balance ----------

  /** A posting belongs to this balance and moves a positive amount. */
  predicate Fits(b: Balance, p: Posting) {
    ValidTarget(p.target) && b.id == p.target.balanceId && b.accountId == p.target.accountId
    && b.asset == p.asset && p.amount > 0.0
  }

  function ValidatePosting(b: Balance, p: Posting): (r: Result<()>)
    ensures r.Ok? <==> Fits(b, p)
    ensures r != Err(InsufficientFunds)
  {
    if !ValidTarget(p.target) then Err(InvalidInput)
    else if b.id != p.target.balanceId then Err(AccountIneligibility)
    else if b.accountId != p.target.accountId then Err(AccountIneligibility)
    else if b.asset != p.asset then Err(AssetCodeNotFound)
    else if !(p.amount > 0.0) then Err(InvalidInput)
    else Ok(())
  }

  function ApplyOperation(b: Balance, p: Posting): Result<Balance> {
    match p.operation
    case OnHold =>
      if p.status != Pending then Err(InvalidStateTransition)
      else Ok(b.(available := b.available - p.amount, onHold := b.onHold + p.amount))
    case Release =>
      if p.status != Canceled then Err(InvalidStateTransition)
      else Ok(b.(onHold := b.onHold - p.amount, available := b.available + p.amount))
    case Debit =>
      if p.status == Approved then Ok(b.(onHold := b.onHold - p.amount))
      else if p.status == Created then Ok(b.(available := b.available - p.amount))
      else Err(InvalidStateTransition)
    case Credit =>
      if p.status == Created || p.status == Approved || p.status == Pending
        then Ok(b.(available := b.available + p.amount))
      else Err(InvalidStateTransition)
    case OtherOperation => Err(InvalidInput)
  }

  predicate NonNegative(b: Balance) { b.available >= 0.0 && b.onHold >= 0.0 }

  function ApplyPosting(b: Balance, p: Posting): (r: Result<Balance>)
    ensures r.Ok? ==> NonNegative(r.value) && r.value.id == b.id && r.value.version == b.version + 1
  {
    var valid := ValidatePosting(b, p);
    if valid.Err? then Err(valid.error) else
    var updated := ApplyOperation(b, p);
    if updated.Err? then Err(updated.error)
    else if !NonNegative(updated.value) then Err(InsufficientFunds)
    else Ok(updated.value.(version := updated.value.version + 1))
  }

  /** What a posting that applies adds to available plus on-hold. */
  function Delta(p: Posting): real {
    match p.operation
    case Debit => -p.amount
    case Credit => p.amount
    case _ => 0.0
  }

  function Worth(b: Balance): real { b.available + b.onHold }

  lemma PostingDelta(b: Balance, p: Posting)
    requires ApplyPosting(b, p).Ok?
    ensures Worth(ApplyPosting(b, p).value) == Worth(b) + Delta(p)
  {
  }

  /** The statuses in which each operation may be posted. */
  predicate Permitted(p: Posting) {
    match p.operation
    case OnHold => p.status == Pending
    case Release => p.status == Canceled
    case Debit => p.status == Created || p.status == Approved
    case Credit => p.status == Created || p.status == Approved || p.status == Pending
    case OtherOperation => false
  }

  /** What a posting needs to find on a balance: holds and direct debits the available part, releases
      and debits on approval the on-hold part. */
  predicate Funded(b: Balance, p: Posting) {
    && (p.operation == OnHold || (p.operation == Debit && p.status == Created) ==> b.available >= p.amount)
    && (p.operation == Release || (p.operation == Debit && p.status == Approved) ==> b.onHold >= p.amount)
  }

  /** On a balance that is not negative a posting applies exactly if it fits, may be posted in its
      status and is funded; each way to be refused has its own error. */
  lemma PostingApplies(b: Balance, p: Posting)
    requires NonNegative(b)
    ensures ApplyPosting(b, p).Ok? <==> Fits(b, p) && Permitted(p) && Funded(b, p)
    ensures ApplyPosting(b, p) == Err(InsufficientFunds) <==> Fits(b, p) && Permitted(p) && !Funded(b, p)
    ensures ApplyPosting(b, p) == Err(InvalidStateTransition) <==>
              Fits(b, p) && !Permitted(p) && p.operation != OtherOperation
    ensures ApplyPosting(b, p) == Err(AccountIneligibility) <==>
              ValidTarget(p.target) && Target(b.accountId, b.id) != p.target
    ensures ApplyPosting(b, p) == Err(AssetCodeNotFound) <==>
              ValidTarget(p.target) && Target(b.accountId, b.id) == p.target && b.asset != p.asset
  {
  }

  // ---------- holds ----------

  /** Holding an amount and releasing it gives the amounts back. */
  lemma HoldThenRelease(b: Balance, hold: Posting, release: Posting)
    requires hold.operation == OnHold && ApplyPosting(b, hold).Ok? && NonNegative(b)
    requires release == hold.(operation := Release, status := Canceled)
    ensures ApplyPosting(ApplyPosting(b, hold).value, release) == Ok(b.(version := b.version + 2))
  {
  }

  /** Holding an amount and debiting it on approval ends where a direct debit ends, and one is
      possible exactly when the other is. */
  lemma HoldThenDebit(b: Balance, hold: Posting, debit: Posting, direct: Posting)
    requires NonNegative(b)
    requires hold.operation == OnHold && hold.status == Pending
    requires debit == hold.(operation := Debit, status := Approved)
             && direct == hold.(operation := Debit, status := Created)
    ensures ApplyPosting(b, hold).Ok? <==> ApplyPosting(b, direct).Ok?
    ensures ApplyPosting(b, hold).Ok? ==>
              var settled := ApplyPosting(ApplyPosting(b, hold).value, debit);
              settled.Ok? && settled.value == ApplyPosting(b, direct).value.(version := b.version + 2)
  {
  }

  predicate Settles(p: Posting) {
    (p.operation == Release && p.status == Canceled) || (p.operation == Debit && p.status == Approved)
  }

  /** A step in the life of a balance: any posting that takes nothing from the holds, or one that
      settles the i-th hold still open. */
  datatype Step = Plain(posting: Posting) | Settle(posting: Posting, i: nat)

  /** A balance and the amounts of the holds not settled yet. */
  datatype Account = Account(balance: Balance, holds: seq<real>)

  predicate Allowed(a: Account, e: Step) {
    match e
    case Plain(p) => !Settles(p)
    case Settle(p, i) => Settles(p) && i < |a.holds| && p.amount == a.holds[i]
  }

  /** A posting that is refused changes nothing. */
  function Advance(a: Account, e: Step): Account
    requires Allowed(a, e)
  {
    var r := ApplyPosting(a.balance, e.posting);
    if r.Err? then a
    else if e.Settle? then Account(r.value, a.holds[..e.i] + a.holds[e.i + 1..])
    else if e.posting.operation == OnHold then Account(r.value, a.holds + [e.posting.amount])
    else Account(r.value, a.holds)
  }

  ghost predicate IsHistory(states: seq<Account>, steps: seq<Step>) {
    && |states| == |steps| + 1 && states[0].holds == [] && NonNegative(states[0].balance)
    && forall k :: 0 <= k < |steps| ==> Allowed(states[k], steps[k]) && states[k + 1] == Advance(states[k], steps[k])
  }

  function Total(xs: seq<real>): real {
    if xs == [] then 0.0 else Total(xs[..|xs| - 1]) + xs[|xs| - 1]
  }

  lemma {:induction false} TotalAppend(xs: seq<real>, ys: seq<real>)
    ensures Total(xs + ys) == Total(xs) + Total(ys)
    decreases |ys|
  {
    if ys == [] {
      assert xs + ys == xs;
    } else {
      TotalAppend(xs, ys[..|ys| - 1]);
      assert (xs + ys)[..|xs + ys| - 1] == xs + ys[..|ys| - 1];
    }
  }

  lemma TotalSnoc(xs: seq<real>, x: real)
    ensures Total(xs + [x]) == Total(xs) + x
  {
    assert (xs + [x])[..|xs|] == xs;
  }

  lemma TotalWithout(before: seq<real>, x: real, after: seq<real>)
    ensures Total(before + after) == Total(before + [x] + after) - x
  {
    TotalAppend(before + [x], after);
    TotalSnoc(before, x);
    TotalAppend(before, after);
  }

  lemma SplitAt(xs: seq<real>, i: nat)
    requires i < |xs|
    ensures xs == xs[..i] + [xs[i]] + xs[i + 1..]
  {
  }

  lemma TotalRemove(xs: seq<real>, i: nat)
    requires i < |xs|
    ensures Total(xs[..i] + xs[i + 1..]) == Total(xs) - xs[i]
  {
    SplitAt(xs, i);
    TotalWithout(xs[..i], xs[i], xs[i + 1..]);
  }

  lemma {:induction false} MemberBelowTotal(xs: seq<real>, i: nat)
    requires i < |xs| && forall k :: 0 <= k < |xs| ==> xs[k] >= 0.0
    ensures xs[i] <= Total(xs)
  {
    var rest := xs[..|xs| - 1];
    if i < |rest| {
      MemberBelowTotal(rest, i);
    } else {
      TotalNonNegative(rest);
    }
  }

  lemma {:induction false} TotalNonNegative(xs: seq<real>)
    requires forall k :: 0 <= k < |xs| ==> xs[k] >= 0.0
    ensures Total(xs) >= 0.0
  {
    if xs != [] {
      TotalNonNegative(xs[..|xs| - 1]);
    }
  }

  ghost predicate Covered(a: Account) {
    NonNegative(a.balance) && a.balance.onHold >= Total(a.holds) && forall k :: 0 <= k < |a.holds| ==> a.holds[k] > 0.0
  }

  /** What a posting that applies does to the on-hold part. */
  lemma PostingOnHold(b: Balance, p: Posting)
    requires ApplyPosting(b, p).Ok?
    ensures p.amount > 0.0 && NonNegative(ApplyPosting(b, p).value)
    ensures ApplyPosting(b, p).value.onHold ==
              if p.operation == OnHold then b.onHold + p.amount
              else if Settles(p) then b.onHold - p.amount else b.onHold
  {
  }

  lemma SettleKeepsCovered(b: Balance, holds: seq<real>, i: nat)
    requires NonNegative(b) && i < |holds| && b.onHold >= Total(holds) - holds[i]
    requires forall k :: 0 <= k < |holds| ==> holds[k] > 0.0
    ensures Covered(Account(b, holds[..i] + holds[i + 1..]))
  {
    TotalRemove(holds, i);
  }

  lemma HoldKeepsCovered(b: Balance, holds: seq<real>, amount: real)
    requires NonNegative(b) && b.onHold >= Total(holds) + amount && amount > 0.0
    requires forall k :: 0 <= k < |holds| ==> holds[k] > 0.0
    ensures Covered(Account(b, holds + [amount]))
  {
    TotalSnoc(holds, amount);
  }

  lemma AdvanceKeepsCovered(a: Account, e: Step)
    requires Covered(a) && Allowed(a, e)
    ensures Covered(Advance(a, e))
  {
    var r := ApplyPosting(a.balance, e.posting);
    if r.Ok? {
      PostingOnHold(a.balance, e.posting);
      if e.Settle? {
        SettleKeepsCovered(r.value, a.holds, e.i);
      } else if e.posting.operation == OnHold {
        HoldKeepsCovered(r.value, a.holds, e.posting.amount);
      }
    }
  }

  lemma {:induction false} HoldsStayCovered(states: seq<Account>, steps: seq<Step>, n: nat)
    requires IsHistory(states, steps) && n < |states|
    ensures Covered(states[n])
  {
    if n > 0 {
      HoldsStayCovered(states, steps, n - 1);
      AdvanceKeepsCovered(states[n - 1], steps[n - 1]);
    }
  }

  /** A granted hold can always be honoured: however other postings interleave, the on-hold amount
      covers every open hold, and settling one fails only if the posting is not for this balance. */
  lemma HoldsAreHonoured(states: seq<Account>, steps: seq<Step>, n: nat, e: Step)
    requires IsHistory(states, steps) && n < |states| && e.Settle? && Allowed(states[n], e)
    ensures states[n].balance.onHold >= Total(states[n].holds)
    ensures ApplyPosting(states[n].balance, e.posting).Ok? <==> Fits(states[n].balance, e.posting)
    ensures ApplyPosting(states[n].balance, e.posting) != Err(InsufficientFunds)
  {
    HoldsStayCovered(states, steps, n);
    MemberBelowTotal(states[n].holds, e.i);
  }
}
