/** What the broker's answer means for the caller, and that the publisher always gets on: the lock is
    always given back, a closed channel is always noticed, and a publisher that is not shut down can
    always deliver again. */
module PublisherDelivery {
  import opened Options
  import opened PublisherProtocol
  import opened PublisherSafety
  import opened Sequences

  // ---------- every message is confirmed at most once ----------

  predicate Invalidating(at: Section) { at.Invalidate? || at.InvalidateSignal? || at.InvalidateClose? }

  /** The message was sent: its call waits for the answer, gives up on it, or has returned. */
  predicate Sent(s: State, t: Thread) {
    || (t in s.threads && s.threads[t].Returned?)
    || (s.lock.Held? && s.lock.owner == t
        && (s.lock.at.PublishWaiting? || Invalidating(s.lock.at)))
  }

  ghost predicate PendingAt(s: State, c: ChanId, i: int, t: Thread) {
    c in s.chans && 0 <= i < |s.chans[c].pending| && s.chans[c].pending[i] == t
  }

  ghost predicate BufferedAt(s: State, c: ChanId, i: int, x: Confirmation) {
    c in s.chans && 0 <= i < |s.chans[c].buffer| && s.chans[c].buffer[i] == x
  }

  /** Messages are sent once, and each is unconfirmed or confirmed with one answer. */
  ghost predicate MessagesInv(s: State) {
    && (forall c, i, t :: PendingAt(s, c, i, t) ==> Sent(s, t) && t !in s.acked)
    && (forall c, i, x :: BufferedAt(s, c, i, x) ==> Sent(s, x.message) && (x.ack <==> x.message in s.acked))
    && (forall t :: t in s.acked ==> Sent(s, t))
    && (forall c, i, d, j, t :: PendingAt(s, c, i, t) && PendingAt(s, d, j, t) ==> c == d && i == j)
    && (forall c, i, d, j, x :: BufferedAt(s, d, j, x) ==> !PendingAt(s, c, i, x.message))
  }

  /** Nothing is sent or confirmed: channels appear empty, lose what is pending, or have their oldest
      confirmation read. */
  ghost predicate Wanes(s: State, s': State) {
    && s'.acked == s.acked
    && forall c :: c in s'.chans ==>
         if c in s.chans then
           && (s'.chans[c].pending == s.chans[c].pending || s'.chans[c].pending == [])
           && (s'.chans[c].buffer == s.chans[c].buffer
               || (s.chans[c].buffer != [] && s'.chans[c].buffer == s.chans[c].buffer[1..]))
         else Quiet(s'.chans[c])
  }

  lemma WanesBack(s: State, s': State)
    requires Wanes(s, s')
    ensures forall c, i, t :: PendingAt(s', c, i, t) ==> PendingAt(s, c, i, t)
    ensures forall c, i, x :: BufferedAt(s', c, i, x) ==> exists j :: BufferedAt(s, c, j, x)
  {
    forall c, i, x | BufferedAt(s', c, i, x) ensures exists j :: BufferedAt(s, c, j, x) {
      if s'.chans[c].buffer == s.chans[c].buffer {
        assert BufferedAt(s, c, i, x);
      } else {
        assert BufferedAt(s, c, i + 1, x);
      }
    }
  }

  lemma WanesKeepsMessages(s: State, s': State)
    requires MessagesInv(s) && Wanes(s, s') && forall t :: Sent(s, t) ==> Sent(s', t)
    ensures MessagesInv(s')
  {
    WanesBack(s, s');
    forall c, i, x | BufferedAt(s', c, i, x) ensures Sent(s', x.message) && (x.ack <==> x.message in s'.acked) {
      var j :| BufferedAt(s, c, j, x);
    }
    forall c, i, d, j, x | BufferedAt(s', d, j, x) ensures !PendingAt(s', c, i, x.message) {
      var k :| BufferedAt(s, d, k, x);
    }
  }

  /** Neither a send that goes through nor an answer of the broker. */
  predicate Silent(a: Action) { !a.BrokerConfirms? && a != Send(true) }

  lemma CallWanes(s: State, a: Action)
    requires Enabled(s, a) && Silent(a) && (EntryStep(a) || PublishStep(a) || InvalidateStep(a))
    ensures Wanes(s, Apply(s, a))
  {
  }

  /** Closing signals touches neither channels nor goroutines. */
  lemma SignalsOnly(s: State, g: Signal, once: nat, h: Signal)
    ensures var s' := CloseOnce(SafeClose(s, g), once, h);
            s'.chans == s.chans && s'.acked == s.acked && s'.threads == s.threads && s'.lock == s.lock
  {
  }

  lemma DrainWanes(s: State, a: Action)
    requires Enabled(s, a) && DrainStep(a)
    ensures Wanes(s, Apply(s, a))
  {
    SignalsOnly(s, s.pub.done, s.pub.closeOnce, s.pub.closedCh);
  }

  lemma RetryWanes(s: State, a: Action)
    requires Enabled(s, a) && RetryStep(a)
    ensures Wanes(s, Apply(s, a))
  {
  }

  lemma InstallWanes(s: State, confirmMode: bool, signal: Signal, monitor: Thread)
    requires Enabled(s, Install(confirmMode, signal, monitor))
    ensures Wanes(s, DoInstall(s, confirmMode, signal, monitor))
  {
  }

  lemma CloseWanes(s: State, a: Action)
    requires Enabled(s, a) && CloseStep(a) && !a.Install?
    ensures Wanes(s, Apply(s, a))
  {
    SignalsOnly(s, s.pub.done, s.pub.closeOnce, s.pub.closedCh);
  }

  lemma ChannelWanes(s: State, a: Action)
    requires Enabled(s, a) && ChannelStep(a) && Silent(a)
    ensures Wanes(s, Apply(s, a))
  {
  }

  lemma SilentWanes(s: State, a: Action)
    requires Enabled(s, a) && Silent(a)
    ensures Wanes(s, Apply(s, a))
  {
    if EntryStep(a) || PublishStep(a) || InvalidateStep(a) {
      CallWanes(s, a);
    } else if DrainStep(a) {
      DrainWanes(s, a);
    } else if RetryStep(a) {
      RetryWanes(s, a);
    } else if a.Install? {
      InstallWanes(s, a.confirmMode, a.signal, a.monitor);
    } else if CloseStep(a) {
      CloseWanes(s, a);
    } else {
      ChannelWanes(s, a);
    }
  }

  lemma CallKeepsSent(s: State, a: Action, t: Thread)
    requires Inv(s) && Enabled(s, a) && Sent(s, t) && (EntryStep(a) || PublishStep(a) || InvalidateStep(a))
    ensures Sent(Apply(s, a), t)
  {
  }

  lemma DrainKeepsSent(s: State, a: Action, t: Thread)
    requires Inv(s) && Enabled(s, a) && Sent(s, t) && DrainStep(a)
    ensures Sent(Apply(s, a), t)
  {
  }

  lemma RetryKeepsSent(s: State, a: Action, t: Thread)
    requires Inv(s) && Enabled(s, a) && Sent(s, t) && RetryStep(a)
    ensures Sent(Apply(s, a), t)
  {
  }

  lemma CloseKeepsSent(s: State, a: Action, t: Thread)
    requires Inv(s) && Enabled(s, a) && Sent(s, t) && CloseStep(a)
    ensures Sent(Apply(s, a), t)
  {
  }

  lemma ChannelKeepsSent(s: State, a: Action, t: Thread)
    requires Inv(s) && Enabled(s, a) && Sent(s, t) && ChannelStep(a)
    ensures Sent(Apply(s, a), t)
  {
  }

  lemma SentStays(s: State, a: Action, t: Thread)
    requires Inv(s) && Enabled(s, a) && Sent(s, t)
    ensures Sent(Apply(s, a), t)
  {
    if EntryStep(a) || PublishStep(a) || InvalidateStep(a) {
      CallKeepsSent(s, a, t);
    } else if DrainStep(a) {
      DrainKeepsSent(s, a, t);
    } else if RetryStep(a) {
      RetryKeepsSent(s, a, t);
    } else if CloseStep(a) {
      CloseKeepsSent(s, a, t);
    } else {
      ChannelKeepsSent(s, a, t);
    }
  }

  lemma SendKeepsMessages(s: State)
    requires Inv(s) && MessagesInv(s) && Enabled(s, Send(true))
    ensures MessagesInv(Apply(s, Send(true)))
  {
    var s', ch, t := Apply(s, Send(true)), s.lock.at.ch, s.lock.owner;
    assert !Sent(s, t) && Sent(s', t);
    forall u | Sent(s, u) ensures Sent(s', u) {}
    forall c, i, u | PendingAt(s', c, i, u)
      ensures PendingAt(s, c, i, u) || (c == ch && i == |s.chans[ch].pending| && u == t)
    {
    }
    forall c, i, x | BufferedAt(s', c, i, x) ensures BufferedAt(s, c, i, x) {}
  }

  lemma ConfirmKeepsMessages(s: State, ch: ChanId, ack: bool)
    requires MessagesInv(s) && Enabled(s, BrokerConfirms(ch, ack))
    ensures MessagesInv(Apply(s, BrokerConfirms(ch, ack)))
  {
    var s', t := Apply(s, BrokerConfirms(ch, ack)), s.chans[ch].pending[0];
    assert PendingAt(s, ch, 0, t);
    forall c, i, u | PendingAt(s', c, i, u)
      ensures PendingAt(s, c, if c == ch then i + 1 else i, u) && u != t
    {
      ConfirmWanes(s, BrokerConfirms(ch, ack), c, i, u);
    }
    forall c, i, x | BufferedAt(s', c, i, x) ensures BufferedAt(s, c, i, x) || x == Confirmation(t, ack) {}
  }

  lemma StepKeepsMessages(s: State, a: Action)
    requires Inv(s) && MessagesInv(s) && Enabled(s, a)
    ensures MessagesInv(Apply(s, a))
  {
    if a == Send(true) {
      SendKeepsMessages(s);
    } else if a.BrokerConfirms? {
      ConfirmKeepsMessages(s, a.ch, a.ack);
    } else {
      SilentWanes(s, a);
      forall t | Sent(s, t) ensures Sent(Apply(s, a), t) {
        SentStays(s, a, t);
      }
      WanesKeepsMessages(s, Apply(s, a));
    }
  }

  lemma {:induction false} RunKeepsMessages(run: seq<State>, acts: seq<Action>, n: nat)
    requires IsRun(run, acts) && n < |run|
    ensures MessagesInv(run[n])
  {
    if n > 0 {
      RunKeepsMessages(run, acts, n - 1);
      RunKeepsInv(run, acts, n - 1);
      StepKeepsMessages(run[n - 1], acts[n - 1]);
    }
  }

  // ---------- what a caller is told ----------

  /** Action i is the broker's answer to message t, the oldest one it had not answered on its channel. */
  ghost predicate Answers(run: seq<State>, acts: seq<Action>, i: int, t: Thread, ack: bool) {
    && 0 <= i < |acts| < |run| && acts[i].BrokerConfirms? && acts[i].ack == ack
    && PendingAt(run[i], acts[i].ch, 0, t)
  }

  lemma AckIsRemembered(s: State, a: Action)
    requires Enabled(s, a)
    ensures s.acked <= Apply(s, a).acked
  {
    if !a.BrokerConfirms? {
      OnlyBrokerAcks(s, a);
    }
  }

  lemma AckStays(run: seq<State>, acts: seq<Action>, i: nat, n: nat, t: Thread)
    requires IsRun(run, acts) && i <= n < |run| && t in run[i].acked
    ensures t in run[n].acked
  {
    var holds := seq(|run|, k requires 0 <= k < |run| => t in run[k].acked);
    forall k | i <= k < n ensures holds[k] ==> holds[k + 1] {
      AckIsRemembered(run[k], acts[k]);
    }
    Stays(holds, i, n);
  }

  lemma FirstPending(s: State, c: ChanId, t: Thread)
    requires c in s.chans && |s.chans[c].pending| > 0
    ensures s.chans[c].pending[..1] == [t] <==> PendingAt(s, c, 0, t)
  {
    assert s.chans[c].pending[..1] == [s.chans[c].pending[0]];
  }

  lemma AckWasAnswered(run: seq<State>, acts: seq<Action>, n: nat, t: Thread) returns (i: nat)
    requires IsRun(run, acts) && n < |run| && t in run[n].acked
    ensures i < n && Answers(run, acts, i, t, true)
  {
    AckedByBroker(run, acts, n, t);
    i :| 0 <= i < n && acts[i].BrokerConfirms? && acts[i].ack
      && acts[i].ch in run[i].chans && run[i].chans[acts[i].ch].pending[..1] == [t];
    FirstPending(run[i], acts[i].ch, t);
  }

  lemma AnswerAcks(s: State, a: Action, t: Thread)
    requires Enabled(s, a) && a.BrokerConfirms? && a.ack && PendingAt(s, a.ch, 0, t)
    ensures t in Apply(s, a).acked
  {
  }

  /** A message counts as acknowledged exactly if the broker acknowledged it earlier in the run. */
  lemma AckedIff(run: seq<State>, acts: seq<Action>, n: nat, t: Thread)
    requires IsRun(run, acts) && n < |run|
    ensures t in run[n].acked <==> exists i :: i < n && Answers(run, acts, i, t, true)
  {
    if t in run[n].acked {
      var i := AckWasAnswered(run, acts, n, t);
    }
    if i :| i < n && Answers(run, acts, i, t, true) {
      AnswerAcks(run[i], acts[i], t);
      AckStays(run, acts, i + 1, n, t);
    }
  }

  lemma ReadReturns(s: State)
    requires Inv(s) && MessagesInv(s) && Enabled(s, ReadConfirm) && s.chans[s.lock.at.confirms].buffer != []
    ensures s.lock.owner in Apply(s, ReadConfirm).threads
    ensures Apply(s, ReadConfirm).threads[s.lock.owner] == Returned(s.lock.owner in s.acked)
  {
    var ch := s.lock.at.confirms;
    assert BufferedAt(s, ch, 0, s.chans[ch].buffer[0]);
    assert Awaits(s.chans[ch], s.lock.owner);
  }

  /** A call that reads a confirmation succeeds if and only if the broker had acknowledged this very
      message; otherwise it returns an error. */
  lemma ConfirmationDecides(run: seq<State>, acts: seq<Action>, n: nat)
    requires IsRun(run, acts) && n < |acts| && acts[n] == ReadConfirm
    requires run[n].chans[run[n].lock.at.confirms].buffer != []
    ensures var t := run[n].lock.owner;
            && t in run[n + 1].threads
            && run[n + 1].threads[t] == Returned(exists i :: i < n && Answers(run, acts, i, t, true))
  {
    RunKeepsInv(run, acts, n);
    RunKeepsMessages(run, acts, n);
    ReadReturns(run[n]);
    AckedIff(run, acts, n, run[n].lock.owner);
  }

  /** The broker is done with the message: it was sent and waits on no channel. */
  ghost predicate Answered(s: State, t: Thread) {
    Sent(s, t) && forall c, i :: !PendingAt(s, c, i, t)
  }

  lemma ConfirmWanes(s: State, a: Action, c: ChanId, i: int, t: Thread)
    requires Enabled(s, a) && a.BrokerConfirms? && PendingAt(Apply(s, a), c, i, t)
    ensures PendingAt(s, c, if c == a.ch then i + 1 else i, t)
  {
  }

  lemma SendAdds(s: State, c: ChanId, i: int, t: Thread)
    requires Enabled(s, Send(true)) && PendingAt(Apply(s, Send(true)), c, i, t) && t != s.lock.owner
    ensures PendingAt(s, c, i, t)
  {
  }

  lemma SenderIsNew(s: State)
    requires Inv(s) && Enabled(s, Send(true))
    ensures !Sent(s, s.lock.owner)
  {
  }

  lemma AnsweredStays(s: State, a: Action, t: Thread)
    requires Inv(s) && Enabled(s, a) && Answered(s, t)
    ensures Answered(Apply(s, a), t)
  {
    var s' := Apply(s, a);
    SentStays(s, a, t);
    if Silent(a) {
      SilentWanes(s, a);
      WanesBack(s, s');
    } else if a.BrokerConfirms? {
      forall c, i | PendingAt(s', c, i, t) ensures false { ConfirmWanes(s, a, c, i, t); }
    } else {
      SenderIsNew(s);
      forall c, i | PendingAt(s', c, i, t) ensures false { SendAdds(s, c, i, t); }
    }
  }

  lemma AnsweredForGood(run: seq<State>, acts: seq<Action>, i: nat, n: nat, t: Thread)
    requires IsRun(run, acts) && i <= n < |run| && Answered(run[i], t)
    ensures Answered(run[n], t)
  {
    var holds := seq(|run|, k requires 0 <= k < |run| => Answered(run[k], t));
    forall k | i <= k < n ensures holds[k] ==> holds[k + 1] {
      if holds[k] {
        RunKeepsInv(run, acts, k);
        AnsweredStays(run[k], acts[k], t);
      }
    }
    Stays(holds, i, n);
  }

  lemma AnswerAnswers(s: State, a: Action, t: Thread)
    requires Inv(s) && MessagesInv(s) && Enabled(s, a) && a.BrokerConfirms? && PendingAt(s, a.ch, 0, t)
    ensures Answered(Apply(s, a), t)
  {
    SentStays(s, a, t);
    forall c, k | PendingAt(Apply(s, a), c, k, t) ensures false { ConfirmWanes(s, a, c, k, t); }
  }

  /** No message is answered twice. */
  lemma AnsweredOnce(run: seq<State>, acts: seq<Action>, i: nat, j: nat, t: Thread, a: bool, b: bool)
    requires IsRun(run, acts) && Answers(run, acts, i, t, a) && Answers(run, acts, j, t, b) && i <= j
    ensures i == j && a == b
  {
    if i < j {
      RunKeepsInv(run, acts, i);
      RunKeepsMessages(run, acts, i);
      AnswerAnswers(run[i], acts[i], t);
      AnsweredForGood(run, acts, i + 1, j, t);
    }
  }

  // ---------- a closed channel is noticed, a closed publisher is signalled ----------

  predicate Renewing(s: State) { s.lock.Held? && (s.lock.at.RecoverClose? || s.lock.at.RecoverDrain?) }

  /** An open publisher has its channel watched, and the monitors' stop signal is closed only for good
      or while it is being renewed. */
  ghost predicate WatchInv(s: State) {
    && (!s.pub.closed ==> exists t :: t in s.threads && s.threads[t] == Watch(s.pub.confirms, s.pub.done))
    && (SignalClosed(s, s.pub.done) ==> s.pub.shutdown || Renewing(s))
  }

  /** A closed publisher has told the waiting calls, or some goroutine is about to. */
  ghost predicate WakeInv(s: State) {
    s.pub.closed ==>
      || SignalClosed(s, s.pub.closedCh)
      || (s.lock.Held? && s.lock.at.InvalidateSignal?)
      || exists t :: t in s.threads && s.threads[t] == Signalling(s.pub.closeOnce, s.pub.closedCh)
  }

  lemma EntryKeepsWatch(s: State, a: Action)
    requires Inv(s) && WatchInv(s) && WakeInv(s) && Enabled(s, a) && EntryStep(a)
    ensures WatchInv(Apply(s, a)) && WakeInv(Apply(s, a))
  {
    forall t | t in s.threads && (s.threads[t].Watch? || s.threads[t].Signalling?)
      ensures t in Apply(s, a).threads && Apply(s, a).threads[t] == s.threads[t]
    {
    }
  }

  lemma PublishKeepsWatch(s: State, a: Action)
    requires Inv(s) && WatchInv(s) && WakeInv(s) && Enabled(s, a) && (PublishStep(a) || InvalidateStep(a))
    ensures WatchInv(Apply(s, a)) && WakeInv(Apply(s, a))
  {
    forall t | t in s.threads ensures t in Apply(s, a).threads && Apply(s, a).threads[t] == s.threads[t] {}
  }

  lemma BrokerKeepsWatch(s: State, a: Action)
    requires Inv(s) && WatchInv(s) && WakeInv(s) && Enabled(s, a) && (a.BrokerConfirms? || a.ChannelCloses?)
    ensures WatchInv(Apply(s, a)) && WakeInv(Apply(s, a))
  {
    assert Apply(s, a).threads == s.threads;
  }

  lemma MonitorKeepsWatch(s: State, a: Action)
    requires Inv(s) && WatchInv(s) && WakeInv(s) && Enabled(s, a)
    requires a.MonitorFires? || a.MonitorStops? || a.MonitorSignals?
    ensures WatchInv(Apply(s, a)) && WakeInv(Apply(s, a))
  {
    var s' := Apply(s, a);
    forall t | t in s.threads && t != a.t ensures t in s'.threads && s'.threads[t] == s.threads[t] {}
    if a.MonitorFires? {
      assert s'.threads[a.t] == Signalling(s'.pub.closeOnce, s'.pub.closedCh);
    }
  }

  lemma DrainKeepsWatch(s: State, a: Action)
    requires Inv(s) && WatchInv(s) && WakeInv(s) && Enabled(s, a) && DrainStep(a)
    ensures WatchInv(Apply(s, a)) && WakeInv(Apply(s, a))
  {
    CloseBothKeepsSignals(s);
    SignalsOnly(s, s.pub.done, s.pub.closeOnce, s.pub.closedCh);
    forall t | t in s.threads ensures t in Apply(s, a).threads && Apply(s, a).threads[t] == s.threads[t] {}
  }

  lemma RetryKeepsWatch(s: State, a: Action)
    requires Inv(s) && WatchInv(s) && WakeInv(s) && Enabled(s, a) && RetryStep(a)
    ensures WatchInv(Apply(s, a)) && WakeInv(Apply(s, a))
  {
    forall t | t in s.threads && t != a.t ensures t in Apply(s, a).threads && Apply(s, a).threads[t] == s.threads[t] {}
  }

  lemma InstallKeepsWatch(s: State, confirmMode: bool, signal: Signal, monitor: Thread)
    requires Inv(s) && WatchInv(s) && WakeInv(s) && Enabled(s, Install(confirmMode, signal, monitor))
    ensures var s' := DoInstall(s, confirmMode, signal, monitor); WatchInv(s') && WakeInv(s')
  {
    var s' := DoInstall(s, confirmMode, signal, monitor);
    forall t | t in s.threads ensures t in s'.threads && s'.threads[t] == s.threads[t] {}
    if s.pub.closed && !s.pub.shutdown && confirmMode {
      assert s'.threads[monitor] == Watch(s'.pub.confirms, s'.pub.done);
    }
  }

  lemma CloseKeepsWatch(s: State, a: Action)
    requires Inv(s) && WatchInv(s) && WakeInv(s) && Enabled(s, a) && CloseStep(a) && !a.Install?
    ensures WatchInv(Apply(s, a)) && WakeInv(Apply(s, a))
  {
    CloseBothKeepsSignals(s);
    SignalsOnly(s, s.pub.done, s.pub.closeOnce, s.pub.closedCh);
    forall t | t in s.threads ensures t in Apply(s, a).threads && Apply(s, a).threads[t] == s.threads[t] {}
  }

  lemma StepKeepsWatch(s: State, a: Action)
    requires Inv(s) && WatchInv(s) && WakeInv(s) && Enabled(s, a)
    ensures WatchInv(Apply(s, a)) && WakeInv(Apply(s, a))
  {
    if EntryStep(a) {
      EntryKeepsWatch(s, a);
    } else if PublishStep(a) || InvalidateStep(a) {
      PublishKeepsWatch(s, a);
    } else if a.BrokerConfirms? || a.ChannelCloses? {
      BrokerKeepsWatch(s, a);
    } else if ChannelStep(a) {
      MonitorKeepsWatch(s, a);
    } else if DrainStep(a) {
      DrainKeepsWatch(s, a);
    } else if RetryStep(a) {
      RetryKeepsWatch(s, a);
    } else if a.Install? {
      InstallKeepsWatch(s, a.confirmMode, a.signal, a.monitor);
    } else {
      CloseKeepsWatch(s, a);
    }
  }

  lemma InitialWatch()
    ensures WatchInv(INITIAL) && WakeInv(INITIAL)
  {
    assert INITIAL.threads[0] == Watch(0, 1);
  }

  /** In every reachable state an open publisher's channel is watched, and the calls that wait on a
      closed one have been woken or are about to be. */
  lemma {:induction false} RunKeepsWatch(run: seq<State>, acts: seq<Action>, n: nat)
    requires IsRun(run, acts) && n < |run|
    ensures WatchInv(run[n]) && WakeInv(run[n])
  {
    if n == 0 {
      InitialWatch();
    } else {
      RunKeepsWatch(run, acts, n - 1);
      RunKeepsInv(run, acts, n - 1);
      StepKeepsWatch(run[n - 1], acts[n - 1]);
    }
  }

  // ---------- a channel that is given up is closed ----------

  /** A publisher without a channel has closed the last one it had, or is about to. */
  predicate LostInv(s: State) {
    s.pub.ch.None? ==>
      || (s.pub.confirms in s.chans && !s.chans[s.pub.confirms].open)
      || (s.lock.Held? && (s.lock.at.InvalidateSignal? || s.lock.at.InvalidateClose?))
      || (s.lock.Held? && s.lock.at.RecoverClose? && s.lock.at.prior == Some(s.pub.confirms))
  }

  lemma EntryKeepsLost(s: State, a: Action)
    requires Inv(s) && LostInv(s) && Enabled(s, a) && EntryStep(a)
    ensures LostInv(Apply(s, a))
  {
  }

  lemma RetryKeepsLost(s: State, a: Action)
    requires Inv(s) && LostInv(s) && Enabled(s, a) && RetryStep(a)
    ensures LostInv(Apply(s, a))
  {
  }

  lemma ChannelKeepsLost(s: State, a: Action)
    requires Inv(s) && LostInv(s) && Enabled(s, a) && ChannelStep(a)
    ensures LostInv(Apply(s, a))
  {
  }

  lemma PublishKeepsLost(s: State, a: Action)
    requires Inv(s) && LostInv(s) && Enabled(s, a) && PublishStep(a)
    ensures LostInv(Apply(s, a))
  {
  }

  lemma InvalidateKeepsLost(s: State, a: Action)
    requires Inv(s) && LostInv(s) && Enabled(s, a) && InvalidateStep(a)
    ensures LostInv(Apply(s, a))
  {
  }

  lemma DrainKeepsLost(s: State, a: Action)
    requires Inv(s) && LostInv(s) && Enabled(s, a) && DrainStep(a)
    ensures LostInv(Apply(s, a))
  {
    SignalsOnly(s, s.pub.done, s.pub.closeOnce, s.pub.closedCh);
  }

  lemma InstallKeepsLost(s: State, confirmMode: bool, signal: Signal, monitor: Thread)
    requires Inv(s) && LostInv(s) && Enabled(s, Install(confirmMode, signal, monitor))
    ensures LostInv(DoInstall(s, confirmMode, signal, monitor))
  {
  }

  lemma CloseKeepsLost(s: State, a: Action)
    requires Inv(s) && LostInv(s) && Enabled(s, a) && CloseStep(a) && !a.Install?
    ensures LostInv(Apply(s, a))
  {
    SignalsOnly(s, s.pub.done, s.pub.closeOnce, s.pub.closedCh);
  }

  lemma StepKeepsLost(s: State, a: Action)
    requires Inv(s) && LostInv(s) && Enabled(s, a)
    ensures LostInv(Apply(s, a))
  {
    if EntryStep(a) {
      EntryKeepsLost(s, a);
    } else if PublishStep(a) {
      PublishKeepsLost(s, a);
    } else if InvalidateStep(a) {
      InvalidateKeepsLost(s, a);
    } else if ChannelStep(a) {
      ChannelKeepsLost(s, a);
    } else if DrainStep(a) {
      DrainKeepsLost(s, a);
    } else if RetryStep(a) {
      RetryKeepsLost(s, a);
    } else if a.Install? {
      InstallKeepsLost(s, a.confirmMode, a.signal, a.monitor);
    } else {
      CloseKeepsLost(s, a);
    }
  }

  /** In every reachable state a publisher that gave up its channel has closed it, or the goroutine that
      gave it up is about to; so its monitor notices. */
  lemma {:induction false} RunKeepsLost(run: seq<State>, acts: seq<Action>, n: nat)
    requires IsRun(run, acts) && n < |run|
    ensures LostInv(run[n])
  {
    if n > 0 {
      RunKeepsLost(run, acts, n - 1);
      RunKeepsInv(run, acts, n - 1);
      StepKeepsLost(run[n - 1], acts[n - 1]);
    }
  }
}
