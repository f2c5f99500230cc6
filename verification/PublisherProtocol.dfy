/** The confirmable publisher: publish calls, close monitors, recovery, Reconnect and Close, step by
    step.  A section under the state lock is one step; the publish lock is held across steps.  The
    broker confirms the messages of each channel in the order they were published, and a channel
    that closes never confirms what it had not confirmed yet. */
module PublisherProtocol {
  import opened Options

  type Thread = nat
  type ChanId = nat
  type Signal = nat

  /** A message is named by the publish call that sends it. */
  datatype Confirmation = Confirmation(message: Thread, ack: bool)

  /** `pending` waits for the broker; `buffer` holds confirmations nobody has read yet. */
  datatype Channel = Channel(pending: seq<Thread>, buffer: seq<Confirmation>, open: bool)

  datatype Fields = Fields(ch: Option<ChanId>, confirms: ChanId, closeOnce: nat, closedCh: Signal, done: Signal,
                           closed: bool, shutdown: bool, exhausted: bool)

  /** Where a goroutine stands that does not hold the publish lock. */
  datatype Pc =
    | Publish
    | Reconnect(newCh: ChanId, resume: Option<Signal>)
    | Close
    | Returned(ok: bool)
    | Watch(ch: ChanId, done: Signal)
    | Signalling(closeOnce: nat, closedCh: Signal)
    | Recover
    | RecoverWait
    | RecoverTry(stop: Signal)
    | Finished

  /** Where the goroutine stands that holds it. */
  datatype Section =
    | PublishCheck
    | PublishReady(ch: ChanId, confirms: ChanId, closedCh: Signal)
    | PublishWaiting(ch: ChanId, confirms: ChanId, closedCh: Signal)
    | Invalidate(ch: ChanId)
    | InvalidateSignal(ch: ChanId)
    | InvalidateClose(ch: ChanId)
    | RecoverMark
    | RecoverClose(prior: Option<ChanId>, confirms: ChanId)
    | RecoverDrain(confirms: ChanId)
    | ReconnectInstall(newCh: ChanId, resume: Option<Signal>)
    | CloseMark
    | CloseChannel(prior: Option<ChanId>)
    | CloseDrain(confirms: ChanId)

  datatype Lock = Free | Held(owner: Thread, at: Section)

  /** `fired` are the close-once guards that ran; `closes` counts how often each signal was closed;
      `acked` are the messages the broker acknowledged. */
  datatype State = State(chans: map<ChanId, Channel>, pub: Fields, lock: Lock, threads: map<Thread, Pc>,
                         fired: set<nat>, closes: map<Signal, nat>, acked: set<Thread>)

  /** A publisher just built on channel 0, with its monitor running. */
  const INITIAL := State(map[0 := Channel([], [], true)], Fields(Some(0), 0, 0, 0, 1, false, false, false), Free,
                         map[0 := Watch(0, 1)], {}, map[0 := 0, 1 := 0], {})

  datatype Action =
    | CallPublish(t: Thread)
    | CallReconnect(t: Thread, newCh: ChanId)
    | CallClose(t: Thread)
    | TakeLock(t: Thread)
    | CheckOpen
    | Send(ok: bool)
    | ReadConfirm
    | SeeClosed
    | GiveUp
    | MarkInvalid
    | SignalInvalid
    | CloseInvalid
    | BrokerConfirms(ch: ChanId, ack: bool)
    | ChannelCloses(ch: ChanId)
    | MonitorFires(t: Thread)
    | MonitorStops(t: Thread)
    | MonitorSignals(t: Thread, recovers: bool)
    | PrepareRecovery
    | CloseForRecovery
    | DrainOne
    | EndRecoveryDrain(done: Signal)
    | ReadStop(t: Thread)
    | ObtainChannel(t: Thread, newCh: ChanId)
    | AbortRecovery(t: Thread)
    | ExhaustRecovery(t: Thread)
    | Install(confirmMode: bool, signal: Signal, monitor: Thread)
    | MarkClosed
    | CloseForGood(ok: bool)
    | EndCloseDrain

  predicate SignalClosed(s: State, g: Signal) { g in s.closes && s.closes[g] > 0 }

  predicate Unused(s: State, t: Thread) { t !in s.threads && (s.lock.Held? ==> s.lock.owner != t) }

  predicate Enabled(s: State, a: Action) {
    match a
    case CallPublish(t) => Unused(s, t)
    case CallReconnect(t, n) => Unused(s, t) && n !in s.chans
    case CallClose(t) => Unused(s, t)
    case TakeLock(t) =>
      t in s.threads && s.lock.Free?
      && (s.threads[t].Publish? || s.threads[t].Recover? || s.threads[t].Reconnect? || s.threads[t].Close?)
    case CheckOpen => s.lock.Held? && s.lock.at.PublishCheck?
    case Send(ok) =>
      s.lock.Held? && s.lock.at.PublishReady? && s.lock.at.ch in s.chans && (ok ==> s.chans[s.lock.at.ch].open)
    case ReadConfirm =>
      s.lock.Held? && s.lock.at.PublishWaiting? && s.lock.at.confirms in s.chans
      && var c := s.chans[s.lock.at.confirms]; c.buffer != [] || !c.open
    case SeeClosed => s.lock.Held? && s.lock.at.PublishWaiting? && SignalClosed(s, s.lock.at.closedCh)
    case GiveUp => s.lock.Held? && s.lock.at.PublishWaiting?
    case MarkInvalid => s.lock.Held? && s.lock.at.Invalidate?
    case SignalInvalid => s.lock.Held? && s.lock.at.InvalidateSignal?
    case CloseInvalid => s.lock.Held? && s.lock.at.InvalidateClose? && s.lock.at.ch in s.chans
    case BrokerConfirms(ch, _) => ch in s.chans && s.chans[ch].open && s.chans[ch].pending != []
    case ChannelCloses(ch) => ch in s.chans
    case MonitorFires(t) =>
      t in s.threads && s.threads[t].Watch? && s.threads[t].ch in s.chans && !s.chans[s.threads[t].ch].open
    case MonitorStops(t) => t in s.threads && s.threads[t].Watch? && SignalClosed(s, s.threads[t].done)
    case MonitorSignals(t, _) => t in s.threads && s.threads[t].Signalling?
    case PrepareRecovery => s.lock.Held? && s.lock.at.RecoverMark?
    case CloseForRecovery =>
      s.lock.Held? && s.lock.at.RecoverClose? && (s.lock.at.prior.Some? ==> s.lock.at.prior.value in s.chans)
    case DrainOne =>
      s.lock.Held? && (s.lock.at.RecoverDrain? || s.lock.at.CloseDrain?)
      && s.lock.at.confirms in s.chans && s.chans[s.lock.at.confirms].buffer != []
    case EndRecoveryDrain(done) => s.lock.Held? && s.lock.at.RecoverDrain? && done !in s.closes
    case ReadStop(t) => t in s.threads && s.threads[t].RecoverWait?
    case ObtainChannel(t, n) => t in s.threads && s.threads[t].RecoverTry? && n !in s.chans
    case AbortRecovery(t) => t in s.threads && s.threads[t].RecoverTry? && SignalClosed(s, s.threads[t].stop)
    case ExhaustRecovery(t) => t in s.threads && s.threads[t].RecoverTry?
    case Install(_, signal, monitor) =>
      s.lock.Held? && s.lock.at.ReconnectInstall? && s.lock.at.newCh in s.chans
      && signal !in s.closes && Unused(s, monitor)
    case MarkClosed => s.lock.Held? && s.lock.at.CloseMark?
    case CloseForGood(_) =>
      s.lock.Held? && s.lock.at.CloseChannel? && (s.lock.at.prior.Some? ==> s.lock.at.prior.value in s.chans)
    case EndCloseDrain => s.lock.Held? && s.lock.at.CloseDrain?
  }

  // ---------- the effect of each step ----------

  function Go(s: State, t: Thread, pc: Pc): State { s.(threads := s.threads[t := pc]) }

  function Stay(s: State, at: Section): State
    requires s.lock.Held?
  {
    s.(lock := Held(s.lock.owner, at))
  }

  function Release(s: State, pc: Pc): State
    requires s.lock.Held?
  {
    s.(lock := Free, threads := s.threads[s.lock.owner := pc])
  }

  function CloseSignal(s: State, g: Signal): State {
    s.(closes := s.closes[g := (if g in s.closes then s.closes[g] else 0) + 1])
  }

  /** closeOnce.Do(close): closes the signal unless the guard already ran. */
  function CloseOnce(s: State, once: nat, g: Signal): State {
    if once in s.fired then s else CloseSignal(s, g).(fired := s.fired + {once})
  }

  /** safeCloseSignal: closes the signal unless it is closed already. */
  function SafeClose(s: State, g: Signal): State { if SignalClosed(s, g) then s else CloseSignal(s, g) }

  function CloseChan(s: State, ch: ChanId): State
    requires ch in s.chans
  {
    s.(chans := s.chans[ch := s.chans[ch].(open := false, pending := [])])
  }

  function CloseSome(s: State, ch: Option<ChanId>): State
    requires ch.Some? ==> ch.value in s.chans
  {
    if ch.Some? then CloseChan(s, ch.value) else s
  }

  function TakeConfirm(s: State, ch: ChanId): State
    requires ch in s.chans && s.chans[ch].buffer != []
  {
    s.(chans := s.chans[ch := s.chans[ch].(buffer := s.chans[ch].buffer[1..])])
  }

  function FirstSection(pc: Pc): Section {
    match pc
    case Publish => PublishCheck
    case Recover => RecoverMark
    case Reconnect(n, resume) => ReconnectInstall(n, resume)
    case _ => CloseMark
  }

  /** The end of Reconnect, with both locks held. */
  function DoInstall(s: State, confirmMode: bool, signal: Signal, monitor: Thread): State
    requires Enabled(s, Install(confirmMode, signal, monitor))
  {
    var n := s.lock.at.newCh;
    if !s.pub.closed || s.pub.shutdown || !confirmMode then
      if s.lock.at.resume.Some? then Release(CloseChan(s, n), RecoverTry(s.lock.at.resume.value))
      else Release(s, Finished)
    else
      var pub := s.pub.(ch := Some(n), confirms := n, closeOnce := signal, closedCh := signal,
                        closed := false, exhausted := false);
      Release(Go(s, monitor, Watch(n, s.pub.done)).(pub := pub, closes := s.closes[signal := 0]), Finished)
  }

  function Apply(s: State, a: Action): State
    requires Enabled(s, a)
  {
    match a
    case CallPublish(t) => Go(s, t, Publish)
    case CallReconnect(t, n) => Go(s, t, Reconnect(n, None)).(chans := s.chans[n := Channel([], [], true)])
    case CallClose(t) => Go(s, t, Close)
    case TakeLock(t) => s.(lock := Held(t, FirstSection(s.threads[t])), threads := s.threads - {t})
    case CheckOpen =>
      if s.pub.closed || s.pub.ch.None? then Release(s, Returned(false))
      else Stay(s, PublishReady(s.pub.ch.value, s.pub.confirms, s.pub.closedCh))
    case Send(ok) =>
      var at := s.lock.at;
      if !ok then Release(s, Returned(false))
      else Stay(s, PublishWaiting(at.ch, at.confirms, at.closedCh))
             .(chans := s.chans[at.ch := s.chans[at.ch].(pending := s.chans[at.ch].pending + [s.lock.owner])])
    case ReadConfirm =>
      var c := s.chans[s.lock.at.confirms];
      if c.buffer == [] then Release(s, Returned(false))
      else Release(TakeConfirm(s, s.lock.at.confirms), Returned(c.buffer[0].ack))
    case SeeClosed => Release(s, Returned(false))
    case GiveUp => Stay(s, Invalidate(s.lock.at.ch))
    case MarkInvalid => Stay(s, InvalidateSignal(s.lock.at.ch)).(pub := s.pub.(closed := true, ch := None))
    case SignalInvalid => Stay(CloseOnce(s, s.pub.closeOnce, s.pub.closedCh), InvalidateClose(s.lock.at.ch))
    case CloseInvalid => Release(CloseChan(s, s.lock.at.ch), Returned(false))
    case BrokerConfirms(ch, ack) =>
      var c := s.chans[ch];
      s.(chans := s.chans[ch := c.(pending := c.pending[1..], buffer := c.buffer + [Confirmation(c.pending[0], ack)])],
         acked := if ack then s.acked + {c.pending[0]} else s.acked)
    case ChannelCloses(ch) => CloseChan(s, ch)
    case MonitorFires(t) => Go(s, t, Signalling(s.pub.closeOnce, s.pub.closedCh)).(pub := s.pub.(closed := true))
    case MonitorStops(t) => Go(s, t, Finished)
    case MonitorSignals(t, recovers) =>
      Go(CloseOnce(s, s.threads[t].closeOnce, s.threads[t].closedCh), t, if recovers then Recover else Finished)
    case PrepareRecovery =>
      if s.pub.shutdown then Release(s, Finished)
      else
        Stay(CloseOnce(SafeClose(s, s.pub.done), s.pub.closeOnce, s.pub.closedCh),
             RecoverClose(s.pub.ch, s.pub.confirms))
          .(pub := s.pub.(closed := true, exhausted := false, ch := None))
    case CloseForRecovery => Stay(CloseSome(s, s.lock.at.prior), RecoverDrain(s.lock.at.confirms))
    case DrainOne => TakeConfirm(s, s.lock.at.confirms)
    case EndRecoveryDrain(done) => Release(s, RecoverWait).(pub := s.pub.(done := done), closes := s.closes[done := 0])
    case ReadStop(t) => Go(s, t, RecoverTry(s.pub.done))
    case ObtainChannel(t, n) =>
      Go(s, t, Reconnect(n, Some(s.threads[t].stop))).(chans := s.chans[n := Channel([], [], true)])
    case AbortRecovery(t) => Go(s, t, Finished)
    case ExhaustRecovery(t) => Go(s, t, Finished).(pub := s.pub.(exhausted := true))
    case Install(confirmMode, signal, monitor) => DoInstall(s, confirmMode, signal, monitor)
    case MarkClosed =>
      if s.pub.shutdown then Release(s, Finished)
      else
        Stay(CloseOnce(SafeClose(s, s.pub.done), s.pub.closeOnce, s.pub.closedCh), CloseChannel(s.pub.ch))
          .(pub := s.pub.(shutdown := true, closed := true, exhausted := false))
    case CloseForGood(ok) =>
      if s.lock.at.prior.Some? && !ok then Release(s, Finished)
      else Stay(CloseSome(s, s.lock.at.prior), CloseDrain(s.pub.confirms))
    case EndCloseDrain => Release(s, Finished)
  }

  /** Consecutive states: the state before each action and the last one. */
  ghost predicate IsPath(run: seq<State>, acts: seq<Action>) {
    && |run| == |acts| + 1
    && forall i :: 0 <= i < |acts| ==> Enabled(run[i], acts[i]) && run[i + 1] == Apply(run[i], acts[i])
  }

  ghost predicate IsRun(run: seq<State>, acts: seq<Action>) { IsPath(run, acts) && run[0] == INITIAL }
}
