/** What every interleaving of the publisher keeps. */
module PublisherSafety {
  import opened Options
  import opened PublisherProtocol

  // ---------- the invariant ----------

  /** Nothing published on the channel is unconfirmed, and no confirmation is unread. */
  predicate Quiet(c: Channel) { c.pending == [] && c.buffer == [] }

  /** The only confirmation that can come out of the channel is the one for message t. */
  predicate Awaits(c: Channel, t: Thread) {
    || (c.pending == [t] && c.buffer == [])
    || (c.pending == [] && |c.buffer| == 1 && c.buffer[0].message == t)
    || (Quiet(c) && !c.open)
  }

  /** The next publish starts on a stream without stale confirmations, or is refused. */
  predicate Synced(s: State) {
    s.pub.closed || (s.pub.confirms in s.chans && Quiet(s.chans[s.pub.confirms]))
  }

  /** Signal g has its own close-once guard, which ran if the signal is closed. */
  predicate Guarded(s: State, g: Signal) {
    g in s.closes && g != s.pub.done && (s.closes[g] == 1 ==> g in s.fired) && (g == s.pub.closedCh ==> s.pub.closed)
  }

  /** A channel brought by a Reconnect call: nothing was ever published on it. */
  predicate Unspoilt(s: State, n: ChanId) { n in s.chans && Quiet(s.chans[n]) && n != s.pub.confirms }

  predicate PcInv(s: State, t: Thread, pc: Pc) {
    match pc
    case Returned(ok) => ok ==> t in s.acked
    case Signalling(once, g) => once == g && Guarded(s, g)
    case Reconnect(n, _) => Unspoilt(s, n)
    case _ => true
  }

  predicate SectionInv(s: State, t: Thread, at: Section) {
    match at
    case PublishCheck => Synced(s)
    case PublishReady(ch, confirms, closedCh) =>
      ch == confirms == s.pub.confirms && closedCh == s.pub.closedCh
      && ch in s.chans && Quiet(s.chans[ch]) && !s.pub.shutdown
    case PublishWaiting(ch, confirms, closedCh) =>
      ch == confirms == s.pub.confirms && closedCh == s.pub.closedCh
      && ch in s.chans && Awaits(s.chans[ch], t) && !s.pub.shutdown
    case Invalidate(ch) => ch in s.chans && ch == s.pub.confirms && !s.pub.shutdown
    case InvalidateSignal(ch) => ch in s.chans && ch == s.pub.confirms && s.pub.closed && !s.pub.shutdown
    case InvalidateClose(ch) => ch in s.chans && ch == s.pub.confirms && s.pub.closed
    case RecoverMark => Synced(s)
    case RecoverClose(prior, confirms) =>
      s.pub.closed && (prior.Some? ==> prior.value in s.chans) && confirms in s.chans
    case RecoverDrain(confirms) => s.pub.closed && confirms in s.chans
    case ReconnectInstall(n, _) => Synced(s) && Unspoilt(s, n)
    case CloseMark => Synced(s)
    case CloseChannel(prior) => s.pub.closed && (prior.Some? ==> prior.value in s.chans)
    case CloseDrain(confirms) => s.pub.closed && confirms in s.chans
  }

  ghost predicate ThreadsInv(s: State) { forall t :: t in s.threads ==> PcInv(s, t, s.threads[t]) }

  predicate LockInv(s: State) {
    match s.lock
    case Free => Synced(s)
    case Held(t, at) => t !in s.threads && SectionInv(s, t, at)
  }

  /** Two goroutines that bring a channel bring different ones. */
  predicate Apart(p: Pc, q: Pc) { p.Reconnect? && q.Reconnect? ==> p.newCh != q.newCh }

  /** New channels are dedicated: each is brought by one goroutine. */
  ghost predicate DedicatedInv(s: State) {
    && (forall t, u :: t in s.threads && u in s.threads && t != u ==> Apart(s.threads[t], s.threads[u]))
    && (s.lock.Held? && s.lock.at.ReconnectInstall? ==>
        forall t :: t in s.threads && s.threads[t].Reconnect? ==> s.threads[t].newCh != s.lock.at.newCh)
  }

  ghost predicate FieldsInv(s: State) {
    && s.pub.confirms in s.chans
    && (s.pub.ch.Some? ==> s.pub.ch.value == s.pub.confirms)
    && (!s.pub.closed ==> s.pub.ch.Some?)
    && (s.pub.shutdown ==> s.pub.closed)
    && (forall c :: c in s.chans && !s.chans[c].open ==> s.chans[c].pending == [])
    && (forall c, i :: c in s.chans && 0 <= i < |s.chans[c].buffer| && s.chans[c].buffer[i].ack ==>
          s.chans[c].buffer[i].message in s.acked)
  }

  /** Guards and signals belong together, no signal is closed twice, and the current closed signal
      is closed only when the publisher is. */
  ghost predicate SignalInv(s: State) {
    && s.pub.closeOnce == s.pub.closedCh != s.pub.done
    && s.pub.closedCh in s.closes && s.pub.done in s.closes && s.pub.done !in s.fired
    && (s.closes[s.pub.closedCh] == 1 ==> s.pub.closed && s.pub.closedCh in s.fired)
    && (forall g :: g in s.closes ==> s.closes[g] <= 1)
    && (forall g :: g in s.fired ==> g in s.closes && s.closes[g] == 1)
  }

  ghost predicate Inv(s: State) {
    ThreadsInv(s) && LockInv(s) && DedicatedInv(s) && FieldsInv(s) && SignalInv(s)
  }

  lemma InitialInv()
    ensures Inv(INITIAL)
  {
  }

  // ---------- every step keeps it ----------

  lemma CloseOnceKeepsInv(s: State, g: Signal)
    requires Inv(s) && Guarded(s, g)
    ensures Inv(CloseOnce(s, g, g))
  {
    var s' := CloseOnce(s, g, g);
    assert SignalInv(s');
    assert ThreadsInv(s');
  }

  /** Closing both the done signal and the closed signal, under both locks. */
  lemma CloseBothKeepsSignals(s: State)
    requires SignalInv(s)
    ensures var s' := CloseOnce(SafeClose(s, s.pub.done), s.pub.closeOnce, s.pub.closedCh);
            && s'.closes.Keys == s.closes.Keys && s'.fired == s.fired + {s.pub.closedCh}
            && s'.closes[s.pub.closedCh] == 1 && s'.closes[s.pub.done] == 1
            && (forall g :: g in s.closes && g != s.pub.closedCh && g != s.pub.done ==> s'.closes[g] == s.closes[g])
  {
  }

  /** The lock holder is done and leaves nothing outstanding. */
  lemma ReleaseKeepsInv(s: State, pc: Pc)
    requires Inv(s) && s.lock.Held? && Synced(s) && !pc.Reconnect? && PcInv(s, s.lock.owner, pc)
    ensures Inv(Release(s, pc))
  {
  }

  /** The lock holder moves on. */
  lemma StayKeepsInv(s: State, at: Section)
    requires Inv(s) && s.lock.Held? && !at.ReconnectInstall? && SectionInv(s, s.lock.owner, at)
    ensures Inv(Stay(s, at))
  {
  }

  lemma CloseChanKeepsInv(s: State, ch: ChanId)
    requires Inv(s) && ch in s.chans
    ensures Inv(CloseChan(s, ch))
  {
  }

  lemma CloseSomeKeepsInv(s: State, ch: Option<ChanId>)
    requires Inv(s) && (ch.Some? ==> ch.value in s.chans)
    ensures Inv(CloseSome(s, ch))
  {
    if ch.Some? {
      CloseChanKeepsInv(s, ch.value);
    }
  }

  /** A goroutine that does not hold the lock moves on. */
  lemma GoKeepsInv(s: State, t: Thread, pc: Pc)
    requires Inv(s) && (t in s.threads || Unused(s, t)) && !pc.Reconnect? && PcInv(s, t, pc)
    ensures Inv(Go(s, t, pc))
  {
  }

  lemma NewChannelKeepsInv(s: State, n: ChanId)
    requires Inv(s) && n !in s.chans
    ensures Inv(s.(chans := s.chans[n := Channel([], [], true)]))
  {
  }

  /** No goroutine brings channel n. */
  ghost predicate Unclaimed(s: State, n: ChanId) {
    && (forall t :: t in s.threads && s.threads[t].Reconnect? ==> s.threads[t].newCh != n)
    && (s.lock.Held? && s.lock.at.ReconnectInstall? ==> s.lock.at.newCh != n)
  }

  lemma BringKeepsInv(s: State, t: Thread, n: ChanId, resume: Option<Signal>)
    requires Inv(s) && (t in s.threads || Unused(s, t)) && Unspoilt(s, n) && Unclaimed(s, n)
    ensures Inv(Go(s, t, Reconnect(n, resume)))
  {
  }

  lemma FreshIsUnclaimed(s: State, n: ChanId)
    requires Inv(s) && n !in s.chans
    ensures var s' := s.(chans := s.chans[n := Channel([], [], true)]); Unspoilt(s', n) && Unclaimed(s', n)
  {
    forall t | t in s.threads && s.threads[t].Reconnect? ensures s.threads[t].newCh != n {
      assert PcInv(s, t, s.threads[t]);
    }
  }

  lemma CallPublishKeepsInv(s: State, t: Thread)
    requires Inv(s) && Enabled(s, CallPublish(t))
    ensures Inv(Apply(s, CallPublish(t)))
  {
    GoKeepsInv(s, t, Publish);
  }

  lemma CallReconnectKeepsInv(s: State, t: Thread, n: ChanId)
    requires Inv(s) && Enabled(s, CallReconnect(t, n))
    ensures Inv(Apply(s, CallReconnect(t, n)))
  {
    NewChannelKeepsInv(s, n);
    FreshIsUnclaimed(s, n);
    BringKeepsInv(s.(chans := s.chans[n := Channel([], [], true)]), t, n, None);
  }

  lemma CallCloseKeepsInv(s: State, t: Thread)
    requires Inv(s) && Enabled(s, CallClose(t))
    ensures Inv(Apply(s, CallClose(t)))
  {
    GoKeepsInv(s, t, Close);
  }

  lemma TakeLockKeepsInv(s: State, t: Thread)
    requires Inv(s) && Enabled(s, TakeLock(t))
    ensures Inv(Apply(s, TakeLock(t)))
  {
  }

  lemma CheckOpenKeepsInv(s: State)
    requires Inv(s) && Enabled(s, CheckOpen)
    ensures Inv(Apply(s, CheckOpen))
  {
    if s.pub.closed || s.pub.ch.None? {
      ReleaseKeepsInv(s, Returned(false));
    } else {
      StayKeepsInv(s, PublishReady(s.pub.ch.value, s.pub.confirms, s.pub.closedCh));
    }
  }

  lemma SendKeepsInv(s: State, ok: bool)
    requires Inv(s) && Enabled(s, Send(ok))
    ensures Inv(Apply(s, Send(ok)))
  {
  }

  /** The confirmation that is read is the one for this very message, and the only one. */
  lemma ReadConfirmKeepsInv(s: State)
    requires Inv(s) && Enabled(s, ReadConfirm)
    ensures Inv(Apply(s, ReadConfirm))
  {
    var c := s.chans[s.lock.at.confirms];
    if c.buffer != [] {
      assert c.buffer[1..] == [];
    }
  }

  lemma SeeClosedKeepsInv(s: State)
    requires Inv(s) && Enabled(s, SeeClosed)
    ensures Inv(Apply(s, SeeClosed))
  {
    ReleaseKeepsInv(s, Returned(false));
  }

  lemma GiveUpKeepsInv(s: State)
    requires Inv(s) && Enabled(s, GiveUp)
    ensures Inv(Apply(s, GiveUp))
  {
    StayKeepsInv(s, Invalidate(s.lock.at.ch));
  }

  lemma MarkInvalidKeepsInv(s: State)
    requires Inv(s) && Enabled(s, MarkInvalid)
    ensures Inv(Apply(s, MarkInvalid))
  {
  }

  lemma SignalInvalidKeepsInv(s: State)
    requires Inv(s) && Enabled(s, SignalInvalid)
    ensures Inv(Apply(s, SignalInvalid))
  {
  }

  lemma CloseInvalidKeepsInv(s: State)
    requires Inv(s) && Enabled(s, CloseInvalid)
    ensures Inv(Apply(s, CloseInvalid))
  {
    CloseChanKeepsInv(s, s.lock.at.ch);
    ReleaseKeepsInv(CloseChan(s, s.lock.at.ch), Returned(false));
  }

  lemma BrokerConfirmsKeepsInv(s: State, ch: ChanId, ack: bool)
    requires Inv(s) && Enabled(s, BrokerConfirms(ch, ack))
    ensures Inv(Apply(s, BrokerConfirms(ch, ack)))
  {
  }

  lemma ChannelClosesKeepsInv(s: State, ch: ChanId)
    requires Inv(s) && Enabled(s, ChannelCloses(ch))
    ensures Inv(Apply(s, ChannelCloses(ch)))
  {
    CloseChanKeepsInv(s, ch);
  }

  lemma MonitorFiresKeepsInv(s: State, t: Thread)
    requires Inv(s) && Enabled(s, MonitorFires(t))
    ensures Inv(Apply(s, MonitorFires(t)))
  {
  }

  lemma MonitorStopsKeepsInv(s: State, t: Thread)
    requires Inv(s) && Enabled(s, MonitorStops(t))
    ensures Inv(Apply(s, MonitorStops(t)))
  {
    GoKeepsInv(s, t, Finished);
  }

  lemma MonitorSignalsKeepsInv(s: State, t: Thread, recovers: bool)
    requires Inv(s) && Enabled(s, MonitorSignals(t, recovers))
    ensures Inv(Apply(s, MonitorSignals(t, recovers)))
  {
    assert PcInv(s, t, s.threads[t]);
    CloseOnceKeepsInv(s, s.threads[t].closedCh);
    GoKeepsInv(CloseOnce(s, s.threads[t].closeOnce, s.threads[t].closedCh), t, if recovers then Recover else Finished);
  }

  /** The publisher was closed and both its signals with it; nothing else changed but the lock holder. */
  ghost predicate ClosedBoth(s: State, s': State) {
    && s'.chans == s.chans && s'.threads == s.threads && s'.acked == s.acked
    && s'.pub.closed && s'.pub.confirms == s.pub.confirms && s'.pub.closeOnce == s.pub.closeOnce
    && s'.pub.closedCh == s.pub.closedCh && s'.pub.done == s.pub.done
    && s.pub.closedCh in s.closes && s.pub.done in s.closes
    && s'.closes.Keys == s.closes.Keys && s'.fired == s.fired + {s.pub.closedCh}
    && s'.closes[s.pub.closedCh] == 1 && s'.closes[s.pub.done] == 1
    && (forall g :: g in s.closes && g != s.pub.closedCh && g != s.pub.done ==> s'.closes[g] == s.closes[g])
  }

  lemma ClosedBothKeepsThreads(s: State, s': State)
    requires ThreadsInv(s) && SignalInv(s) && ClosedBoth(s, s')
    ensures ThreadsInv(s')
  {
    forall t | t in s'.threads ensures PcInv(s', t, s'.threads[t]) {
      assert PcInv(s, t, s.threads[t]);
    }
  }

  lemma ClosedBothKeepsSignals(s: State, s': State)
    requires SignalInv(s) && ClosedBoth(s, s')
    ensures SignalInv(s')
  {
  }

  lemma PrepareRecoveryKeepsInv(s: State)
    requires Inv(s) && Enabled(s, PrepareRecovery)
    ensures Inv(Apply(s, PrepareRecovery))
  {
    if s.pub.shutdown {
      ReleaseKeepsInv(s, Finished);
    } else {
      CloseBothKeepsSignals(s);
      var s' := Apply(s, PrepareRecovery);
      assert ClosedBoth(s, s');
      ClosedBothKeepsThreads(s, s');
      ClosedBothKeepsSignals(s, s');
    }
  }

  lemma CloseForRecoveryKeepsInv(s: State)
    requires Inv(s) && Enabled(s, CloseForRecovery)
    ensures Inv(Apply(s, CloseForRecovery))
  {
    CloseSomeKeepsInv(s, s.lock.at.prior);
    StayKeepsInv(CloseSome(s, s.lock.at.prior), RecoverDrain(s.lock.at.confirms));
  }

  lemma DrainOneKeepsInv(s: State)
    requires Inv(s) && Enabled(s, DrainOne)
    ensures Inv(Apply(s, DrainOne))
  {
  }

  lemma EndRecoveryDrainKeepsInv(s: State, done: Signal)
    requires Inv(s) && Enabled(s, EndRecoveryDrain(done))
    ensures Inv(Apply(s, EndRecoveryDrain(done)))
  {
  }

  lemma ReadStopKeepsInv(s: State, t: Thread)
    requires Inv(s) && Enabled(s, ReadStop(t))
    ensures Inv(Apply(s, ReadStop(t)))
  {
    GoKeepsInv(s, t, RecoverTry(s.pub.done));
  }

  lemma ObtainChannelKeepsInv(s: State, t: Thread, n: ChanId)
    requires Inv(s) && Enabled(s, ObtainChannel(t, n))
    ensures Inv(Apply(s, ObtainChannel(t, n)))
  {
    NewChannelKeepsInv(s, n);
    FreshIsUnclaimed(s, n);
    BringKeepsInv(s.(chans := s.chans[n := Channel([], [], true)]), t, n, Some(s.threads[t].stop));
  }

  lemma AbortRecoveryKeepsInv(s: State, t: Thread)
    requires Inv(s) && Enabled(s, AbortRecovery(t))
    ensures Inv(Apply(s, AbortRecovery(t)))
  {
    GoKeepsInv(s, t, Finished);
  }

  lemma ExhaustRecoveryKeepsInv(s: State, t: Thread)
    requires Inv(s) && Enabled(s, ExhaustRecovery(t))
    ensures Inv(Apply(s, ExhaustRecovery(t)))
  {
  }

  lemma RefusedInstallKeepsInv(s: State, confirmMode: bool, signal: Signal, monitor: Thread)
    requires Inv(s) && Enabled(s, Install(confirmMode, signal, monitor))
    requires !s.pub.closed || s.pub.shutdown || !confirmMode
    ensures Inv(DoInstall(s, confirmMode, signal, monitor))
  {
    if s.lock.at.resume.Some? {
      CloseChanKeepsInv(s, s.lock.at.newCh);
      ReleaseKeepsInv(CloseChan(s, s.lock.at.newCh), RecoverTry(s.lock.at.resume.value));
    } else {
      ReleaseKeepsInv(s, Finished);
    }
  }

  lemma InstallKeepsInv(s: State, signal: Signal, monitor: Thread)
    requires Inv(s) && Enabled(s, Install(true, signal, monitor)) && s.pub.closed && !s.pub.shutdown
    ensures Inv(DoInstall(s, true, signal, monitor))
  {
  }

  lemma MarkClosedKeepsInv(s: State)
    requires Inv(s) && Enabled(s, MarkClosed)
    ensures Inv(Apply(s, MarkClosed))
  {
    if s.pub.shutdown {
      ReleaseKeepsInv(s, Finished);
    } else {
      CloseBothKeepsSignals(s);
      var s' := Apply(s, MarkClosed);
      assert ClosedBoth(s, s');
      ClosedBothKeepsThreads(s, s');
      ClosedBothKeepsSignals(s, s');
    }
  }

  lemma CloseForGoodKeepsInv(s: State, ok: bool)
    requires Inv(s) && Enabled(s, CloseForGood(ok))
    ensures Inv(Apply(s, CloseForGood(ok)))
  {
    if s.lock.at.prior.Some? && !ok {
      ReleaseKeepsInv(s, Finished);
    } else {
      CloseSomeKeepsInv(s, s.lock.at.prior);
      StayKeepsInv(CloseSome(s, s.lock.at.prior), CloseDrain(s.pub.confirms));
    }
  }

  lemma EndCloseDrainKeepsInv(s: State)
    requires Inv(s) && Enabled(s, EndCloseDrain)
    ensures Inv(Apply(s, EndCloseDrain))
  {
    ReleaseKeepsInv(s, Finished);
  }

  // The steps in groups.

  predicate EntryStep(a: Action) { a.CallPublish? || a.CallReconnect? || a.CallClose? || a.TakeLock? }

  predicate PublishStep(a: Action) { a.CheckOpen? || a.Send? || a.ReadConfirm? || a.SeeClosed? }

  predicate InvalidateStep(a: Action) { a.GiveUp? || a.MarkInvalid? || a.SignalInvalid? || a.CloseInvalid? }

  predicate ChannelStep(a: Action) {
    a.BrokerConfirms? || a.ChannelCloses? || a.MonitorFires? || a.MonitorStops? || a.MonitorSignals?
  }

  predicate DrainStep(a: Action) { a.PrepareRecovery? || a.CloseForRecovery? || a.DrainOne? || a.EndRecoveryDrain? }

  predicate RetryStep(a: Action) { a.ReadStop? || a.ObtainChannel? || a.AbortRecovery? || a.ExhaustRecovery? }

  predicate CloseStep(a: Action) { a.Install? || a.MarkClosed? || a.CloseForGood? || a.EndCloseDrain? }

  lemma EntryStepKeepsInv(s: State, a: Action)
    requires Inv(s) && Enabled(s, a) && EntryStep(a)
    ensures Inv(Apply(s, a))
  {
    match a
    case CallPublish(t) => CallPublishKeepsInv(s, t);
    case CallReconnect(t, n) => CallReconnectKeepsInv(s, t, n);
    case CallClose(t) => CallCloseKeepsInv(s, t);
    case TakeLock(t) => TakeLockKeepsInv(s, t);
  }

  lemma PublishStepKeepsInv(s: State, a: Action)
    requires Inv(s) && Enabled(s, a) && PublishStep(a)
    ensures Inv(Apply(s, a))
  {
    match a
    case CheckOpen => CheckOpenKeepsInv(s);
    case Send(ok) => SendKeepsInv(s, ok);
    case ReadConfirm => ReadConfirmKeepsInv(s);
    case SeeClosed => SeeClosedKeepsInv(s);
  }

  lemma InvalidateStepKeepsInv(s: State, a: Action)
    requires Inv(s) && Enabled(s, a) && InvalidateStep(a)
    ensures Inv(Apply(s, a))
  {
    match a
    case GiveUp => GiveUpKeepsInv(s);
    case MarkInvalid => MarkInvalidKeepsInv(s);
    case SignalInvalid => SignalInvalidKeepsInv(s);
    case CloseInvalid => CloseInvalidKeepsInv(s);
  }

  lemma ChannelStepKeepsInv(s: State, a: Action)
    requires Inv(s) && Enabled(s, a) && ChannelStep(a)
    ensures Inv(Apply(s, a))
  {
    match a
    case BrokerConfirms(ch, ack) => BrokerConfirmsKeepsInv(s, ch, ack);
    case ChannelCloses(ch) => ChannelClosesKeepsInv(s, ch);
    case MonitorFires(t) => MonitorFiresKeepsInv(s, t);
    case MonitorStops(t) => MonitorStopsKeepsInv(s, t);
    case MonitorSignals(t, recovers) => MonitorSignalsKeepsInv(s, t, recovers);
  }

  lemma DrainStepKeepsInv(s: State, a: Action)
    requires Inv(s) && Enabled(s, a) && DrainStep(a)
    ensures Inv(Apply(s, a))
  {
    match a
    case PrepareRecovery => PrepareRecoveryKeepsInv(s);
    case CloseForRecovery => CloseForRecoveryKeepsInv(s);
    case DrainOne => DrainOneKeepsInv(s);
    case EndRecoveryDrain(done) => EndRecoveryDrainKeepsInv(s, done);
  }

  lemma RetryStepKeepsInv(s: State, a: Action)
    requires Inv(s) && Enabled(s, a) && RetryStep(a)
    ensures Inv(Apply(s, a))
  {
    match a
    case ReadStop(t) => ReadStopKeepsInv(s, t);
    case ObtainChannel(t, n) => ObtainChannelKeepsInv(s, t, n);
    case AbortRecovery(t) => AbortRecoveryKeepsInv(s, t);
    case ExhaustRecovery(t) => ExhaustRecoveryKeepsInv(s, t);
  }

  lemma CloseStepKeepsInv(s: State, a: Action)
    requires Inv(s) && Enabled(s, a) && CloseStep(a)
    ensures Inv(Apply(s, a))
  {
    match a
    case Install(confirmMode, signal, monitor) =>
      if !s.pub.closed || s.pub.shutdown || !confirmMode {
        RefusedInstallKeepsInv(s, confirmMode, signal, monitor);
      } else {
        InstallKeepsInv(s, signal, monitor);
      }
    case MarkClosed => MarkClosedKeepsInv(s);
    case CloseForGood(ok) => CloseForGoodKeepsInv(s, ok);
    case EndCloseDrain => EndCloseDrainKeepsInv(s);
  }

  /** Every step keeps the invariant. */
  lemma StepKeepsInv(s: State, a: Action)
    requires Inv(s) && Enabled(s, a)
    ensures Inv(Apply(s, a))
  {
    if EntryStep(a) {
      EntryStepKeepsInv(s, a);
    } else if PublishStep(a) {
      PublishStepKeepsInv(s, a);
    } else if InvalidateStep(a) {
      InvalidateStepKeepsInv(s, a);
    } else if ChannelStep(a) {
      ChannelStepKeepsInv(s, a);
    } else if DrainStep(a) {
      DrainStepKeepsInv(s, a);
    } else if RetryStep(a) {
      RetryStepKeepsInv(s, a);
    } else {
      CloseStepKeepsInv(s, a);
    }
  }

  lemma {:induction false} RunKeepsInv(run: seq<State>, acts: seq<Action>, n: nat)
    requires IsRun(run, acts) && n < |run|
    ensures Inv(run[n])
  {
    if n == 0 {
      InitialInv();
    } else {
      RunKeepsInv(run, acts, n - 1);
      StepKeepsInv(run[n - 1], acts[n - 1]);
    }
  }

  // ---------- what it means for callers ----------

  /** A publish call that returns without error was acknowledged by the broker, and for this very
      message; and whenever the publish lock is free, the publisher is closed or no confirmation is
      outstanding on its current stream. */
  lemma SuccessMeansAcked(run: seq<State>, acts: seq<Action>, n: nat, t: Thread)
    requires IsRun(run, acts) && n < |run|
    ensures t in run[n].threads && run[n].threads[t] == Returned(true) ==> t in run[n].acked
    ensures run[n].lock.Free? && !run[n].pub.closed ==>
              run[n].pub.confirms in run[n].chans && Quiet(run[n].chans[run[n].pub.confirms])
  {
    RunKeepsInv(run, acts, n);
    assert t in run[n].threads ==> PcInv(run[n], t, run[n].threads[t]);
  }

  lemma OnlyBrokerAcks(s: State, a: Action)
    requires Enabled(s, a) && !a.BrokerConfirms?
    ensures Apply(s, a).acked == s.acked
  {
    if EntryStep(a) {
    } else if PublishStep(a) {
    } else if InvalidateStep(a) {
    } else if ChannelStep(a) {
    } else if DrainStep(a) {
    } else if RetryStep(a) {
    }
  }

  lemma NewAck(s: State, a: Action, t: Thread)
    requires Enabled(s, a) && t in Apply(s, a).acked && t !in s.acked
    ensures a.BrokerConfirms? && a.ack && s.chans[a.ch].pending[..1] == [t]
  {
    if a.BrokerConfirms? {
      assert s.chans[a.ch].pending[..1] == [s.chans[a.ch].pending[0]];
    } else {
      OnlyBrokerAcks(s, a);
    }
  }

  /** Only the broker's own acknowledgement puts a message among the acknowledged ones. */
  lemma {:induction false} AckedByBroker(run: seq<State>, acts: seq<Action>, n: nat, t: Thread)
    requires IsRun(run, acts) && n < |run| && t in run[n].acked
    ensures exists i :: 0 <= i < n && acts[i].BrokerConfirms? && acts[i].ack
                        && acts[i].ch in run[i].chans && run[i].chans[acts[i].ch].pending[..1] == [t]
  {
    if t in run[n - 1].acked {
      AckedByBroker(run, acts, n - 1, t);
    } else {
      NewAck(run[n - 1], acts[n - 1], t);
    }
  }

  /** No signal is ever closed twice. */
  lemma SignalsCloseOnce(run: seq<State>, acts: seq<Action>, n: nat, g: Signal)
    requires IsRun(run, acts) && n < |run|
    ensures g in run[n].closes ==> run[n].closes[g] <= 1
  {
    RunKeepsInv(run, acts, n);
  }

  lemma ShutdownStays(s: State, a: Action)
    requires Enabled(s, a) && s.pub.shutdown
    ensures Apply(s, a).pub.shutdown
  {
  }

  /** After shutdown the publisher stays shut down and closed, nothing more is sent, and every
      publish call that looks at the publisher is refused. */
  lemma {:induction false} ShutdownIsFinal(run: seq<State>, acts: seq<Action>, i: nat, j: nat)
    requires IsRun(run, acts) && i <= j < |run| && run[i].pub.shutdown
    ensures run[j].pub.shutdown && run[j].pub.closed
    ensures j < |acts| ==> acts[j] != Send(true)
    ensures j < |acts| && acts[j] == CheckOpen ==> run[j + 1].threads[run[j].lock.owner] == Returned(false)
    decreases j
  {
    if i < j {
      ShutdownIsFinal(run, acts, i, j - 1);
      ShutdownStays(run[j - 1], acts[j - 1]);
    }
    RunKeepsInv(run, acts, j);
  }
}
