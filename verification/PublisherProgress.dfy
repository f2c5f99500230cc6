/** The publisher always gets on: whoever holds the publish lock can give it back, and as long as the
    publisher is not shut down a message can be delivered, after a reconnect if need be. */
module PublisherProgress {
  import opened Options
  import opened PublisherProtocol
  import opened PublisherSafety
  import opened PublisherDelivery
  import opened Sequences

  // ---------- building paths ----------

  function Last(run: seq<State>): State
    requires run != []
  {
    run[|run| - 1]
  }

  lemma PathCons(s: State, a: Action, run: seq<State>, acts: seq<Action>)
    requires Enabled(s, a) && IsPath(run, acts) && run[0] == Apply(s, a)
    ensures IsPath([s] + run, [a] + acts) && ([s] + run)[0] == s && Last([s] + run) == Last(run)
  {
    var longer, more := [s] + run, [a] + acts;
    forall i | 0 <= i < |more| ensures Enabled(longer[i], more[i]) && longer[i + 1] == Apply(longer[i], more[i]) {
      if i > 0 {
        assert longer[i] == run[i - 1] && more[i] == acts[i - 1] && longer[i + 1] == run[i - 1 + 1];
      }
    }
  }

  lemma PathAppend(run: seq<State>, acts: seq<Action>, run': seq<State>, acts': seq<Action>)
    requires IsPath(run, acts) && IsPath(run', acts') && run'[0] == Last(run)
    ensures IsPath(run + run'[1..], acts + acts')
    ensures (run + run'[1..])[0] == run[0] && Last(run + run'[1..]) == Last(run')
  {
    var longer, more := run + run'[1..], acts + acts';
    forall i | 0 <= i < |more| ensures Enabled(longer[i], more[i]) && longer[i + 1] == Apply(longer[i], more[i]) {
      if i >= |acts| {
        var k := i - |acts|;
        assert longer[i] == run'[k] && longer[i + 1] == run'[k + 1] && more[i] == acts'[k];
      }
    }
  }

  lemma FreshThread(s: State) returns (t: Thread)
    ensures Unused(s, t)
  {
    t := UpperBound(s.threads.Keys + if s.lock.Held? then {s.lock.owner} else {});
  }

  // ---------- giving the lock back ----------

  /** The step by which a lock holder leaves its section when nothing answers it. */
  function WayOut(s: State, signal: Signal, monitor: Thread): Action
    requires s.lock.Held?
  {
    match s.lock.at
    case PublishCheck => CheckOpen
    case PublishReady(_, _, _) => Send(false)
    case PublishWaiting(_, _, _) => GiveUp
    case Invalidate(_) => MarkInvalid
    case InvalidateSignal(_) => SignalInvalid
    case InvalidateClose(_) => CloseInvalid
    case RecoverMark => PrepareRecovery
    case RecoverClose(_, _) => CloseForRecovery
    case RecoverDrain(_) => EndRecoveryDrain(signal)
    case ReconnectInstall(_, _) => Install(false, signal, monitor)
    case CloseMark => MarkClosed
    case CloseChannel(_) => CloseForGood(true)
    case CloseDrain(_) => EndCloseDrain
  }

  function StepsLeft(at: Section): nat {
    match at
    case PublishCheck => 2
    case PublishReady(_, _, _) => 1
    case PublishWaiting(_, _, _) => 4
    case Invalidate(_) => 3
    case InvalidateSignal(_) => 2
    case InvalidateClose(_) => 1
    case RecoverMark => 3
    case RecoverClose(_, _) => 2
    case RecoverDrain(_) => 1
    case ReconnectInstall(_, _) => 1
    case CloseMark => 3
    case CloseChannel(_) => 2
    case CloseDrain(_) => 1
  }

  predicate Closing(at: Section) { at.CloseMark? || at.CloseChannel? || at.CloseDrain? }

  ghost predicate GetsOut(s: State, a: Action)
    requires s.lock.Held?
  {
    && Enabled(s, a)
    && var s' := Apply(s, a);
       && (s'.lock.Held? ==>
             && s'.lock.owner == s.lock.owner && StepsLeft(s'.lock.at) < StepsLeft(s.lock.at)
             && (Closing(s'.lock.at) <==> Closing(s.lock.at)))
       && (!Closing(s.lock.at) ==> s'.pub.shutdown == s.pub.shutdown)
  }

  predicate Publishing(at: Section) {
    at.PublishCheck? || at.PublishReady? || at.PublishWaiting? || Invalidating(at)
  }

  lemma PublisherGetsOut(s: State, signal: Signal, monitor: Thread)
    requires Inv(s) && s.lock.Held? && Publishing(s.lock.at)
    ensures GetsOut(s, WayOut(s, signal, monitor))
  {
  }

  lemma RecoveryGetsOut(s: State, signal: Signal, monitor: Thread)
    requires Inv(s) && s.lock.Held? && signal !in s.closes
    requires s.lock.at.RecoverMark? || s.lock.at.RecoverClose? || s.lock.at.RecoverDrain?
    ensures GetsOut(s, WayOut(s, signal, monitor))
  {
  }

  lemma ReconnectGetsOut(s: State, signal: Signal, monitor: Thread)
    requires Inv(s) && s.lock.Held? && s.lock.at.ReconnectInstall? && signal !in s.closes && Unused(s, monitor)
    ensures GetsOut(s, Install(false, signal, monitor))
  {
  }

  lemma CloseGetsOut(s: State, signal: Signal, monitor: Thread)
    requires Inv(s) && s.lock.Held? && Closing(s.lock.at)
    ensures GetsOut(s, WayOut(s, signal, monitor))
  {
  }

  /** No deadlock: from every state that the invariant allows, the holder of the publish lock has a way
      of at most four steps of its own to give it back. */
  lemma {:induction false} LockIsGivenBack(s: State) returns (run: seq<State>, acts: seq<Action>)
    requires Inv(s) && WatchInv(s) && WakeInv(s) && s.lock.Held?
    ensures IsPath(run, acts) && run[0] == s && Last(run).lock.Free? && |acts| <= StepsLeft(s.lock.at) <= 4
    ensures Inv(Last(run)) && WatchInv(Last(run)) && WakeInv(Last(run))
    ensures !Closing(s.lock.at) ==> Last(run).pub.shutdown == s.pub.shutdown
    decreases StepsLeft(s.lock.at)
  {
    var signal := UpperBound(s.closes.Keys);
    var monitor := FreshThread(s);
    var a := WayOut(s, signal, monitor);
    if Publishing(s.lock.at) {
      PublisherGetsOut(s, signal, monitor);
    } else if Closing(s.lock.at) {
      CloseGetsOut(s, signal, monitor);
    } else if s.lock.at.ReconnectInstall? {
      ReconnectGetsOut(s, signal, monitor);
    } else {
      RecoveryGetsOut(s, signal, monitor);
    }
    var s' := Apply(s, a);
    StepKeepsInv(s, a);
    StepKeepsWatch(s, a);
    if s'.lock.Free? {
      run, acts := [s'], [];
    } else {
      run, acts := LockIsGivenBack(s');
    }
    PathCons(s, a, run, acts);
    run, acts := [s] + run, [a] + acts;
  }

  // ---------- delivering a message ----------

  /** The path ends with the call t returning the broker's answer. */
  ghost predicate Delivers(s: State, t: Thread, ack: bool, run: seq<State>, acts: seq<Action>) {
    IsPath(run, acts) && run[0] == s && t in Last(run).threads && Last(run).threads[t] == Returned(ack)
  }

  lemma Reads(s: State, t: Thread, ch: ChanId, g: Signal, ack: bool) returns (run: seq<State>, acts: seq<Action>)
    requires s.lock == Held(t, PublishWaiting(ch, ch, g)) && ch in s.chans
    requires s.chans[ch].buffer == [Confirmation(t, ack)]
    ensures Delivers(s, t, ack, run, acts)
  {
    run, acts := [s, Apply(s, ReadConfirm)], [ReadConfirm];
  }

  lemma Waits(s: State, t: Thread, ch: ChanId, g: Signal, ack: bool) returns (run: seq<State>, acts: seq<Action>)
    requires s.lock == Held(t, PublishWaiting(ch, ch, g)) && ch in s.chans
    requires s.chans[ch].open && s.chans[ch].pending == [t] && s.chans[ch].buffer == []
    ensures Delivers(s, t, ack, run, acts)
  {
    var a := BrokerConfirms(ch, ack);
    run, acts := Reads(Apply(s, a), t, ch, g, ack);
    PathCons(s, a, run, acts);
    run, acts := [s] + run, [a] + acts;
  }

  lemma Sends(s: State, t: Thread, ch: ChanId, g: Signal, ack: bool) returns (run: seq<State>, acts: seq<Action>)
    requires s.lock == Held(t, PublishReady(ch, ch, g)) && ch in s.chans && s.chans[ch].open && Quiet(s.chans[ch])
    ensures Delivers(s, t, ack, run, acts)
  {
    run, acts := Waits(Apply(s, Send(true)), t, ch, g, ack);
    PathCons(s, Send(true), run, acts);
    run, acts := [s] + run, [Send(true)] + acts;
  }

  /** Ready to publish: open, on an open channel on which nothing is outstanding. */
  predicate Ready(s: State) {
    && !s.pub.closed && s.pub.ch == Some(s.pub.confirms) && s.pub.confirms in s.chans
    && s.chans[s.pub.confirms].open && Quiet(s.chans[s.pub.confirms])
  }

  lemma Checks(s: State, t: Thread, ack: bool) returns (run: seq<State>, acts: seq<Action>)
    requires s.lock == Held(t, PublishCheck) && Ready(s)
    ensures Delivers(s, t, ack, run, acts)
  {
    run, acts := Sends(Apply(s, CheckOpen), t, s.pub.confirms, s.pub.closedCh, ack);
    PathCons(s, CheckOpen, run, acts);
    run, acts := [s] + run, [CheckOpen] + acts;
  }

  /** A publish call on a publisher that is ready goes through, and returns what the broker answers. */
  lemma ReadyDelivers(s: State, t: Thread, ack: bool) returns (run: seq<State>, acts: seq<Action>)
    requires s.lock.Free? && Ready(s) && Unused(s, t)
    ensures Delivers(s, t, ack, run, acts)
  {
    var s1 := Apply(s, CallPublish(t));
    var s2 := Apply(s1, TakeLock(t));
    run, acts := Checks(s2, t, ack);
    PathCons(s1, TakeLock(t), run, acts);
    run, acts := [s1] + run, [TakeLock(t)] + acts;
    PathCons(s, CallPublish(t), run, acts);
    run, acts := [s] + run, [CallPublish(t)] + acts;
  }

  // ---------- reconnecting ----------

  /** A path to a state with the lock free that is ready. */
  ghost predicate MakesReady(s: State, run: seq<State>, acts: seq<Action>) {
    IsPath(run, acts) && run[0] == s && Last(run).lock.Free? && Ready(Last(run))
  }

  lemma Installs(s: State, t: Thread, n: ChanId, g: Signal, monitor: Thread)
    returns (run: seq<State>, acts: seq<Action>)
    requires s.lock == Held(t, ReconnectInstall(n, None)) && s.pub.closed && !s.pub.shutdown
    requires n in s.chans && s.chans[n] == Channel([], [], true) && g !in s.closes && Unused(s, monitor)
    ensures MakesReady(s, run, acts)
  {
    var a := Install(true, g, monitor);
    run, acts := [s, Apply(s, a)], [a];
  }

  /** A closed publisher that is not shut down can be reconnected. */
  lemma ClosedReconnects(s: State) returns (run: seq<State>, acts: seq<Action>)
    requires s.lock.Free? && s.pub.closed && !s.pub.shutdown
    ensures MakesReady(s, run, acts)
  {
    var t := FreshThread(s);
    var n := UpperBound(s.chans.Keys);
    var s1 := Apply(s, CallReconnect(t, n));
    var s2 := Apply(s1, TakeLock(t));
    var g := UpperBound(s2.closes.Keys);
    var monitor := FreshThread(s2);
    run, acts := Installs(s2, t, n, g, monitor);
    PathCons(s1, TakeLock(t), run, acts);
    run, acts := [s1] + run, [TakeLock(t)] + acts;
    PathCons(s, CallReconnect(t, n), run, acts);
    run, acts := [s] + run, [CallReconnect(t, n)] + acts;
  }

  /** A channel that closed under an open publisher is noticed by its monitor, which closes the publisher. */
  lemma DeadChannelReconnects(s: State) returns (run: seq<State>, acts: seq<Action>)
    requires Inv(s) && WatchInv(s) && s.lock.Free? && !s.pub.closed && !s.chans[s.pub.confirms].open
    ensures MakesReady(s, run, acts)
  {
    var t :| t in s.threads && s.threads[t] == Watch(s.pub.confirms, s.pub.done);
    run, acts := ClosedReconnects(Apply(s, MonitorFires(t)));
    PathCons(s, MonitorFires(t), run, acts);
    run, acts := [s] + run, [MonitorFires(t)] + acts;
  }

  lemma FreeGetsReady(s: State) returns (run: seq<State>, acts: seq<Action>)
    requires Inv(s) && WatchInv(s) && s.lock.Free? && !s.pub.shutdown
    ensures MakesReady(s, run, acts)
  {
    if s.pub.closed {
      run, acts := ClosedReconnects(s);
    } else if !s.chans[s.pub.confirms].open {
      run, acts := DeadChannelReconnects(s);
    } else {
      run, acts := [s], [];
    }
  }

  lemma FreeDelivers(s: State, ack: bool) returns (t: Thread, run: seq<State>, acts: seq<Action>)
    requires Inv(s) && WatchInv(s) && s.lock.Free? && !s.pub.shutdown
    ensures Delivers(s, t, ack, run, acts)
  {
    var before, first := FreeGetsReady(s);
    t := FreshThread(Last(before));
    var after, rest := ReadyDelivers(Last(before), t, ack);
    PathAppend(before, first, after, rest);
    run, acts := before + after[1..], first + rest;
  }

  /** From every reachable state that is not shut down and in which no Close holds the lock, some
      continuation publishes a message and has the broker's answer returned, whichever it is. */
  lemma CanAlwaysDeliver(run: seq<State>, acts: seq<Action>, n: nat, ack: bool)
    returns (t: Thread, more: seq<State>, todo: seq<Action>)
    requires IsRun(run, acts) && n < |run| && !run[n].pub.shutdown
    requires run[n].lock.Held? ==> !Closing(run[n].lock.at)
    ensures Delivers(run[n], t, ack, more, todo)
  {
    RunKeepsInv(run, acts, n);
    RunKeepsWatch(run, acts, n);
    var before, first := [run[n]], [];
    if run[n].lock.Held? {
      before, first := LockIsGivenBack(run[n]);
    }
    var after, rest;
    t, after, rest := FreeDelivers(Last(before), ack);
    PathAppend(before, first, after, rest);
    more, todo := before + after[1..], first + rest;
  }

  // ---------- Close ----------

  /** Close shuts the publisher down, tells the monitors and the waiting calls, and a successful close
      of the channel closes it. */
  lemma CloseTakesEffect(run: seq<State>, acts: seq<Action>, n: nat)
    requires IsRun(run, acts) && n < |acts|
    ensures acts[n] == MarkClosed ==> run[n + 1].pub.shutdown && run[n + 1].pub.closed
    ensures acts[n] == MarkClosed && !run[n].pub.shutdown ==>
      SignalClosed(run[n + 1], run[n].pub.done) && SignalClosed(run[n + 1], run[n].pub.closedCh)
    ensures acts[n] == CloseForGood(true) && run[n].lock.at.prior.Some? ==>
      run[n].lock.at.prior.value in run[n + 1].chans && !run[n + 1].chans[run[n].lock.at.prior.value].open
  {
    RunKeepsInv(run, acts, n);
    if acts[n] == MarkClosed {
      CloseBothKeepsSignals(run[n]);
    }
  }
}
