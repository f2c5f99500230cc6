/** Sequences without repetitions, their members, and numbers not used yet. */
module Sequences {
  ghost predicate Distinct<T>(xs: seq<T>) {
    forall i, j :: 0 <= i < j < |xs| ==> xs[i] != xs[j]
  }

  ghost function SetOf<T>(xs: seq<T>): set<T> { set x | x in xs }

  lemma {:induction false} UpperBound(xs: set<nat>) returns (bound: nat)
    ensures forall x :: x in xs ==> x < bound
    decreases |xs|
  {
    if xs == {} {
      bound := 0;
    } else {
      var x :| x in xs;
      var rest := UpperBound(xs - {x});
      bound := if x < rest then rest else x + 1;
      assert forall y :: y in xs ==> y == x || y in xs - {x};
    }
  }

  /** What each step keeps stays. */
  lemma {:induction false} Stays(holds: seq<bool>, i: nat, n: nat)
    requires i <= n < |holds| && holds[i] && forall k :: i <= k < n ==> (holds[k] ==> holds[k + 1])
    ensures holds[n]
  {
    if i < n {
      Stays(holds, i, n - 1);
      assert holds[n - 1 + 1];
    }
  }
}
