/** What becomes of the channels that recovery obtains, and when recovery counts as exhausted. */
module PublisherRecovery {
  import opened Options
  import opened PublisherProtocol
  import opened PublisherSafety
  import opened Sequences

  // ---------- channels obtained for recovery ----------

  predicate IsOpen(s: State, n: ChanId) { n in s.chans && s.chans[n].open }

  /** The thread is on its way to install the channel. */
  predicate Carries(s: State, t: Thread, n: ChanId) {
    || (t in s.threads && s.threads[t].Reconnect? && s.threads[t].newCh == n && s.threads[t].resume.Some?)
    || (s.lock.Held? && s.lock.owner == t && s.lock.at.ReconnectInstall? && s.lock.at.newCh == n
        && s.lock.at.resume.Some?)
  }

  /** The step makes the channel the one the publisher publishes on. */
  predicate Installs(s: State, a: Action, n: ChanId) {
    && a.Install? && a.confirmMode && s.pub.closed && !s.pub.shutdown
    && s.lock.Held? && s.lock.at.ReconnectInstall? && s.lock.at.newCh == n
  }

  /** Whoever holds the publish lock stands in one place. */
  predicate OwnerAway(s: State) { s.lock.Held? ==> s.lock.owner !in s.threads }

  /** Calls, publishing and what the broker does; the rest is recovery, Reconnect and Close. */
  predicate Outer(a: Action) { EntryStep(a) || PublishStep(a) || InvalidateStep(a) || ChannelStep(a) }

  lemma OuterKeepsOwner(s: State, a: Action)
    requires OwnerAway(s) && Enabled(s, a) && Outer(a)
    ensures OwnerAway(Apply(s, a))
  {
  }

  lemma StepKeepsOwner(s: State, a: Action)
    requires OwnerAway(s) && Enabled(s, a)
    ensures OwnerAway(Apply(s, a))
  {
    if Outer(a) {
      OuterKeepsOwner(s, a);
    }
  }

  lemma RunKeepsOwner(run: seq<State>, acts: seq<Action>, m: nat)
    requires IsRun(run, acts) && m < |run|
    ensures OwnerAway(run[m])
  {
    var holds := seq(|run|, i requires 0 <= i < |run| => OwnerAway(run[i]));
    forall k | 0 <= k < m && holds[k] ensures holds[k + 1] {
      StepKeepsOwner(run[k], acts[k]);
    }
    Stays(holds, 0, m);
  }

  lemma InstallGoesOnePlace(s: State, a: Action, t: Thread, n: ChanId)
    requires OwnerAway(s) && Enabled(s, a) && a.Install? && Carries(s, t, n)
    ensures Carries(Apply(s, a), t, n) || !IsOpen(Apply(s, a), n) || Installs(s, a, n)
  {
  }

  lemma PublishCarriesOn(s: State, a: Action, t: Thread, n: ChanId)
    requires OwnerAway(s) && Enabled(s, a) && (EntryStep(a) || PublishStep(a)) && Carries(s, t, n)
    ensures Carries(Apply(s, a), t, n)
  {
  }

  lemma BreakCarriesOn(s: State, a: Action, t: Thread, n: ChanId)
    requires OwnerAway(s) && Enabled(s, a) && (InvalidateStep(a) || ChannelStep(a)) && Carries(s, t, n)
    ensures Carries(Apply(s, a), t, n)
  {
  }

  lemma CarriedOn(s: State, a: Action, t: Thread, n: ChanId)
    requires OwnerAway(s) && Enabled(s, a) && !a.Install? && Carries(s, t, n)
    ensures Carries(Apply(s, a), t, n)
  {
    if EntryStep(a) || PublishStep(a) {
      PublishCarriesOn(s, a, t, n);
    } else if InvalidateStep(a) || ChannelStep(a) {
      BreakCarriesOn(s, a, t, n);
    }
  }

  lemma PublishOpensNone(s: State, a: Action, n: ChanId)
    requires Enabled(s, a) && (EntryStep(a) || PublishStep(a)) && n in s.chans
    ensures n in Apply(s, a).chans && (IsOpen(Apply(s, a), n) ==> IsOpen(s, n))
  {
  }

  lemma BreakOpensNone(s: State, a: Action, n: ChanId)
    requires Enabled(s, a) && (InvalidateStep(a) || ChannelStep(a)) && n in s.chans
    ensures n in Apply(s, a).chans && (IsOpen(Apply(s, a), n) ==> IsOpen(s, n))
  {
  }

  /** Channels stay, and one that is closed is never open again. */
  lemma StepOpensNone(s: State, a: Action, n: ChanId)
    requires Enabled(s, a) && n in s.chans
    ensures n in Apply(s, a).chans && (IsOpen(Apply(s, a), n) ==> IsOpen(s, n))
  {
    if EntryStep(a) || PublishStep(a) {
      PublishOpensNone(s, a, n);
    } else if InvalidateStep(a) || ChannelStep(a) {
      BreakOpensNone(s, a, n);
    }
  }

  /** Recovery leaks no channel: one it obtained is still carried by its thread, closed, or was installed. */
  lemma {:induction false} ObtainedIsNotLeaked(run: seq<State>, acts: seq<Action>, i: nat, m: nat)
    requires IsRun(run, acts) && i < m < |run| && acts[i].ObtainChannel?
    ensures acts[i].newCh in run[m].chans
    ensures || Carries(run[m], acts[i].t, acts[i].newCh) || !IsOpen(run[m], acts[i].newCh)
            || exists j :: i < j < m && Installs(run[j], acts[j], acts[i].newCh)
  {
    var t, n := acts[i].t, acts[i].newCh;
    if m > i + 1 {
      ObtainedIsNotLeaked(run, acts, i, m - 1);
      var s, a := run[m - 1], acts[m - 1];
      StepOpensNone(s, a, n);
      if Carries(s, t, n) {
        RunKeepsOwner(run, acts, m - 1);
        if a.Install? {
          InstallGoesOnePlace(s, a, t, n);
        } else {
          CarriedOn(s, a, t, n);
        }
      }
    }
  }

  // ---------- exhausted ----------

  /** The step starts over: a recovery that begins, a channel that is installed, or Close. */
  predicate Renews(s: State, a: Action) {
    || ((a.PrepareRecovery? || a.MarkClosed?) && !s.pub.shutdown)
    || (a.Install? && a.confirmMode && s.pub.closed && !s.pub.shutdown)
  }

  predicate Concerns(a: Action) { a.ExhaustRecovery? || a.PrepareRecovery? || a.MarkClosed? || a.Install? }

  lemma OthersLeaveExhausted(s: State, a: Action)
    requires Enabled(s, a) && !Concerns(a)
    ensures Apply(s, a).pub.exhausted == s.pub.exhausted
  {
  }

  lemma ExhaustedStep(s: State, a: Action)
    requires Enabled(s, a)
    ensures Apply(s, a).pub.exhausted <==> a.ExhaustRecovery? || (s.pub.exhausted && !Renews(s, a))
  {
    if !Concerns(a) {
      OthersLeaveExhausted(s, a);
    }
  }

  /** The attempts of some recovery were used up and nothing has started over since. */
  ghost predicate GaveUpLast(run: seq<State>, acts: seq<Action>, m: nat)
    requires m <= |acts| < |run|
  {
    exists i :: 0 <= i < m && acts[i].ExhaustRecovery? && forall j :: i < j < m ==> !Renews(run[j], acts[j])
  }

  /** A flag that is set by some steps and cleared by others tells which came last. */
  lemma {:induction false} FlagTellsLast(flag: seq<bool>, sets: seq<bool>, clears: seq<bool>, m: nat)
    requires |flag| == |sets| + 1 == |clears| + 1 && m <= |sets| && !flag[0]
    requires forall k :: 0 <= k < |sets| ==> (flag[k + 1] <==> sets[k] || (flag[k] && !clears[k]))
    ensures flag[m] <==> exists i :: 0 <= i < m && sets[i] && forall j :: i < j < m ==> !clears[j]
  {
    if m > 0 {
      FlagTellsLast(flag, sets, clears, m - 1);
      assert flag[m - 1 + 1] <==> sets[m - 1] || (flag[m - 1] && !clears[m - 1]);
    }
  }

  /** The publisher reports exhausted recovery exactly then. */
  lemma ExhaustedIff(run: seq<State>, acts: seq<Action>, m: nat)
    requires IsRun(run, acts) && m < |run|
    ensures run[m].pub.exhausted <==> GaveUpLast(run, acts, m)
  {
    var flag := seq(|run|, i requires 0 <= i < |run| => run[i].pub.exhausted);
    var sets := seq(|acts|, i requires 0 <= i < |acts| => acts[i].ExhaustRecovery?);
    var clears := seq(|acts|, i requires 0 <= i < |acts| => Renews(run[i], acts[i]));
    forall k | 0 <= k < |acts| ensures flag[k + 1] <==> sets[k] || (flag[k] && !clears[k]) {
      ExhaustedStep(run[k], acts[k]);
    }
    FlagTellsLast(flag, sets, clears, m);
    FlagReadsBack(run, acts, sets, clears, m);
  }

  lemma FlagReadsBack(run: seq<State>, acts: seq<Action>, sets: seq<bool>, clears: seq<bool>, m: nat)
    requires m <= |acts| == |sets| == |clears| < |run|
    requires forall i :: 0 <= i < |acts| ==> sets[i] == acts[i].ExhaustRecovery? && clears[i] == Renews(run[i], acts[i])
    ensures GaveUpLast(run, acts, m) <==> exists i :: 0 <= i < m && sets[i] && forall j :: i < j < m ==> !clears[j]
  {
    if i :| 0 <= i < m && sets[i] && forall j :: i < j < m ==> !clears[j] {
      assert acts[i].ExhaustRecovery? && forall j :: i < j < m ==> !Renews(run[j], acts[j]);
    }
    if GaveUpLast(run, acts, m) {
      var i :| 0 <= i < m && acts[i].ExhaustRecovery? && forall j :: i < j < m ==> !Renews(run[j], acts[j]);
      assert sets[i] && forall j :: i < j < m ==> !clears[j];
    }
  }
}
