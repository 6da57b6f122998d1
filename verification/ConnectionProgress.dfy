/**
 Progress of a managed connection: what happens when nothing interferes. The safety of the machine alone would
 also hold of one that never connects.
 */
module ConnectionProgress {
  import opened Common
  import opened ConnectionLifecycle

  /** Some steps, one after the other. */
  function Run(m: Managed, steps: seq<Step>, policy: Policy): Managed
    decreases |steps|
  {
    if steps == [] then m else Run(Next(m, steps[0], policy), steps[1..], policy)
  }

  lemma {:induction false} RunConcat(m: Managed, first: seq<Step>, second: seq<Step>, policy: Policy)
    ensures Run(m, first + second, policy) == Run(Run(m, first, policy), second, policy)
    decreases |first|
  {
    hide Next;
    if first == [] {
      assert first + second == second;
    } else {
      assert (first + second)[0] == first[0] && (first + second)[1..] == first[1..] + second;
      RunConcat(Next(m, first[0], policy), first[1..], second, policy);
    }
  }

  /** The steps that open the remaining hops of a chain. */
  function OpenHops(remaining: nat): seq<Step> {
    if remaining == 0 then []
    else if remaining == 1 then [CredentialsStep, OpenedStep]
    else [CredentialsStep, OpenedStep, ForwardedStep] + OpenHops(remaining - 1)
  }

  function HopHandles(attempt: nat, from: nat, count: nat): seq<Handle>
    decreases count
  {
    if count == 0 then [] else [Handle(attempt, from)] + HopHandles(attempt, from + 1, count - 1)
  }

  lemma OneHop(m: Managed, hop: nat, hops: nat, policy: Policy)
    requires m.connect == Some(Credentials(hop, hops)) && hop < hops && !m.aborted && m.present
    ensures hop + 1 == hops ==>
              var t := Run(m, [CredentialsStep, OpenedStep], policy);
              && t.status == Ready && t.connect.None? && t.everReady && !t.reconnectCanceled && t.reconnectAttempt == 0
              && t.handles == m.handles + [Handle(m.attempt, hop)] && t.closed == m.closed && t.attempt == m.attempt
    ensures hop + 1 < hops ==>
              var t := Run(m, [CredentialsStep, OpenedStep, ForwardedStep], policy);
              && t.connect == Some(Credentials(hop + 1, hops)) && !t.aborted && t.present
              && t.handles == m.handles + [Handle(m.attempt, hop)] && t.closed == m.closed && t.attempt == m.attempt
  {
    var connected := HopOpened(GotCredentials(m));
    assert Run(m, [CredentialsStep], policy) == GotCredentials(m);
    RunConcat(m, [CredentialsStep], [OpenedStep], policy);
    assert [CredentialsStep] + [OpenedStep] == [CredentialsStep, OpenedStep];
    assert Run(GotCredentials(m), [OpenedStep], policy) == connected;
    RunConcat(m, [CredentialsStep, OpenedStep], [ForwardedStep], policy);
    assert [CredentialsStep, OpenedStep] + [ForwardedStep] == [CredentialsStep, OpenedStep, ForwardedStep];
    assert Run(connected, [ForwardedStep], policy) == Forwarded(connected);
  }

  lemma {:induction false} HopsOpen(m: Managed, hop: nat, hops: nat, policy: Policy)
    requires m.connect == Some(Credentials(hop, hops)) && hop < hops && !m.aborted && m.present
    ensures var t := Run(m, OpenHops(hops - hop), policy);
            && t.status == Ready && t.connect.None? && t.everReady && !t.reconnectCanceled && t.reconnectAttempt == 0
            && t.handles == m.handles + HopHandles(m.attempt, hop, hops - hop) && t.closed == m.closed
            && t.attempt == m.attempt
    decreases hops - hop
  {
    hide Run, Next;
    OneHop(m, hop, hops, policy);
    if hop + 1 == hops {
      assert HopHandles(m.attempt, hop + 1, 0) == [];
    } else {
      var next := Run(m, [CredentialsStep, OpenedStep, ForwardedStep], policy);
      RunConcat(m, [CredentialsStep, OpenedStep, ForwardedStep], OpenHops(hops - hop - 1), policy);
      HopsOpen(next, hop + 1, hops, policy);
      assert m.handles + [Handle(m.attempt, hop)] + HopHandles(m.attempt, hop + 1, hops - hop - 1) ==
             m.handles + HopHandles(m.attempt, hop, hops - hop);
    }
  }

  /** A connect that meets no failure ends ready, with one handle for each hop, in the order of the hops. */
  lemma ChainConnects(m: Managed, hops: nat, policy: Policy)
    requires m.connect == Some(Preparing) && hops > 0 && !m.aborted && m.present && m.handles == []
    ensures var t := Run(m, [PreparedStep(hops)] + OpenHops(hops), policy);
            && t.status == Ready && t.connect.None? && t.everReady && !t.reconnectCanceled && t.reconnectAttempt == 0
            && t.handles == HopHandles(m.attempt, 0, hops) && t.closed == m.closed && t.attempt == m.attempt
  {
    assert Run(m, [PreparedStep(hops)], policy) == Prepared(m, hops);
    hide Run;
    RunConcat(m, [PreparedStep(hops)], OpenHops(hops), policy);
    HopsOpen(Prepared(m, hops), 0, hops, policy);
  }

  /** As many steps of a recovery as it takes. */
  function RecoverSteps(n: nat): seq<Step> {
    seq(n, i => RecoverStep)
  }

  lemma {:induction false} BatchCloses(m: Managed, policy: Policy)
    requires m.recovery.Some?
    ensures var t := Run(m, RecoverSteps(|m.recovery.value.batch| + 1), policy);
            t == m.(
              recovery := None, closed := m.closed + m.recovery.value.batch,
              timer := m.timer || (m.recovery.value.willReconnect && !m.reconnectCanceled && !m.aborted && m.present))
    decreases |m.recovery.value.batch|
  {
    hide Prepared, GotCredentials, HopOpened, Discarded, Forwarded, ConnectFailed, ConnectCaught, HandleLost;
    hide TimerFires, CancelReconnect, StartClosing, CloserStep;
    var batch := m.recovery.value.batch;
    assert RecoverSteps(|batch| + 1)[1..] == RecoverSteps(|batch|);
    if batch == [] {
      assert RecoverSteps(0) == [] && m.closed + batch == m.closed;
    } else {
      BatchCloses(RecoveryStep(m), policy);
      assert m.closed + [batch[0]] + batch[1..] == m.closed + batch;
    }
  }

  /**
   A lost connection closes its handles from the last hop to the first and then waits to reconnect, exactly
   when it may and has attempts left; otherwise it has failed.
   */
  lemma LossRecovers(m: Managed, policy: Policy, setting: bool)
    requires Control(m, policy) && m.status == Ready && m.present && !m.aborted
    ensures var t := Run(m, [LostStep(setting)] + RecoverSteps(|m.handles| + 1), policy);
            && t.handles == [] && t.closed == m.closed + Reverse(m.handles) && t.recovery.None? && t.connect.None?
            && t.attempt == m.attempt && t.present && !t.aborted
            && t.everReady == m.everReady && t.reconnectCanceled == m.reconnectCanceled
            && (if m.everReady && !m.reconnectCanceled && (policy.automatic || setting)
                   && m.reconnectAttempt < policy.maxAttempts
                then t.timer && t.status == Reconnecting && t.reconnectAttempt == m.reconnectAttempt + 1
                else !t.timer && t.status == Failed && t.reconnectAttempt == m.reconnectAttempt)
  {
    var lost := HandleLost(m, policy, setting);
    assert Run(m, [LostStep(setting)], policy) == lost;
    Reversed(m.handles);
    hide Run;
    RunConcat(m, [LostStep(setting)], RecoverSteps(|m.handles| + 1), policy);
    BatchCloses(lost, policy);
  }

  /** When the timer fires, a connection that may still reconnect starts a new attempt. */
  lemma TimerReconnects(m: Managed, policy: Policy, setting: bool)
    requires Control(m, policy) && m.timer
    ensures var t := Run(m, [TimerStep(setting)], policy);
            && !t.timer && t.handles == m.handles && t.closed == m.closed && t.present && !t.aborted
            && (if m.everReady && !m.reconnectCanceled && (policy.automatic || setting)
                then t.connect == Some(Preparing) && t.attempt == m.attempt + 1 && t.status == Resolving
                else t.connect == m.connect && t.attempt == m.attempt && t.status == Failed)
  {
  }

  /** A loss, the closing of the handles, the wait, and a new attempt over a chain of the given length. */
  function LossAndReturn(handles: nat, hops: nat, setting: bool): seq<Step> {
    [LostStep(setting)] + RecoverSteps(handles + 1) + [TimerStep(setting)] + ([PreparedStep(hops)] + OpenHops(hops))
  }

  /**
   A lost connection that may reconnect and is not interfered with comes back: the old handles are closed from
   the last hop to the first, a new attempt has one handle for each hop, and the attempts count from zero again.
   */
  lemma ComesBack(m: Managed, hops: nat, policy: Policy, setting: bool)
    requires Control(m, policy) && m.status == Ready && m.present && !m.aborted && hops > 0
    requires m.everReady && !m.reconnectCanceled && (policy.automatic || setting)
    requires m.reconnectAttempt < policy.maxAttempts
    ensures var t := Run(m, LossAndReturn(|m.handles|, hops, setting), policy);
            && t.status == Ready && t.connect.None? && t.reconnectAttempt == 0
            && t.attempt == m.attempt + 1 && t.handles == HopHandles(m.attempt + 1, 0, hops)
            && t.closed == m.closed + Reverse(m.handles)
  {
    var loss := [LostStep(setting)] + RecoverSteps(|m.handles| + 1);
    LossRecovers(m, policy, setting);
    RunControl(m, loss, policy);
    var waiting := Run(m, loss, policy);
    TimerReconnects(waiting, policy, setting);
    var again := Run(waiting, [TimerStep(setting)], policy);
    ChainConnects(again, hops, policy);
    RunConcat(m, loss, [TimerStep(setting)], policy);
    RunConcat(m, loss + [TimerStep(setting)], [PreparedStep(hops)] + OpenHops(hops), policy);
    hide Run;
  }

  // ----- connects that fail -----

  /**
   A connect that fails gives up the hops it has opened, from the last to the first, and then waits to reconnect,
   exactly when it may and has attempts left.
   */
  lemma FailureRecovers(m: Managed, policy: Policy, setting: bool)
    requires Control(m, policy) && m.connect.Some? && !m.connect.value.Discarding? && m.present && !m.aborted
    ensures var t := Run(m, [FailStep, CatchStep(setting)] + RecoverSteps(|m.handles| + 1), policy);
            && t.handles == [] && t.closed == m.closed + Reverse(m.handles) && t.recovery.None? && t.connect.None?
            && t.attempt == m.attempt && t.present && !t.aborted && t.everReady == m.everReady
            && (if m.everReady && !m.reconnectCanceled && (policy.automatic || setting)
                   && m.reconnectAttempt < policy.maxAttempts
                then t.timer && t.status == Reconnecting && t.reconnectAttempt == m.reconnectAttempt + 1
                else !t.timer && t.status == Failed && t.reconnectAttempt == m.reconnectAttempt)
  {
    var caught := ConnectCaught(ConnectFailed(m), policy, setting);
    assert Run(m, [FailStep], policy) == ConnectFailed(m);
    assert Run(ConnectFailed(m), [CatchStep(setting)], policy) == caught;
    RunConcat(m, [FailStep], [CatchStep(setting)], policy);
    assert [FailStep] + [CatchStep(setting)] == [FailStep, CatchStep(setting)];
    Reversed(m.handles);
    hide Run;
    RunConcat(m, [FailStep, CatchStep(setting)], RecoverSteps(|m.handles| + 1), policy);
    BatchCloses(caught, policy);
  }

  /** After an abort a connect that fails just ends. */
  lemma AbortedFailureEnds(m: Managed, policy: Policy, setting: bool)
    requires m.connect.Some? && !m.connect.value.Discarding? && m.aborted
    ensures Run(m, [FailStep, CatchStep(setting)], policy) == m.(connect := None)
  {
    assert Run(m, [FailStep], policy) == ConnectFailed(m);
    assert Run(ConnectFailed(m), [CatchStep(setting)], policy) == ConnectCaught(ConnectFailed(m), policy, setting);
    RunConcat(m, [FailStep], [CatchStep(setting)], policy);
    assert [FailStep] + [CatchStep(setting)] == [FailStep, CatchStep(setting)];
  }

  /** A hop that opens after an abort is closed at once, and the connect ends. */
  lemma LateOpenEnds(m: Managed, hop: nat, hops: nat, policy: Policy, setting: bool)
    requires m.connect == Some(Opening(hop, hops)) && m.aborted
    ensures var handle := Handle(m.attempt, hop);
            Run(m, [OpenedStep, DiscardedStep, CatchStep(setting)], policy) ==
            m.(connect := None, everOpened := m.everOpened + {handle}, discarded := m.discarded + {handle},
               closed := m.closed + [handle])
  {
    var late := HopOpened(m);
    assert Run(m, [OpenedStep], policy) == late;
    assert Run(late, [DiscardedStep], policy) == Discarded(late);
    assert Run(Discarded(late), [CatchStep(setting)], policy) == ConnectCaught(Discarded(late), policy, setting);
    RunConcat(m, [OpenedStep], [DiscardedStep], policy);
    assert [OpenedStep] + [DiscardedStep] == [OpenedStep, DiscardedStep];
    RunConcat(m, [OpenedStep, DiscardedStep], [CatchStep(setting)], policy);
    assert [OpenedStep, DiscardedStep] + [CatchStep(setting)] == [OpenedStep, DiscardedStep, CatchStep(setting)];
  }

  // ----- closing -----

  function CloserTurns(i: nat, n: nat): seq<Step> {
    seq(n, k => CloserTurn(i))
  }

  /** A call of close that nothing interferes with: the i-th, on so many handles, perhaps with a grant to revoke. */
  function CloseAlone(i: nat, handles: nat, hasGrant: bool): seq<Step> {
    [CloseStep(hasGrant)] + CloserTurns(i, if hasGrant then handles + 2 else handles + 1)
  }

  lemma {:induction false} CloserEmpties(m: Managed, i: nat, policy: Policy)
    requires i < |m.closers| && m.closers[i].Emptying?
    ensures Run(m, CloserTurns(i, |m.closers[i].batch| + 1), policy) ==
            m.(closers := m.closers[i := Closer.Gone], closed := m.closed + m.closers[i].batch, status := Closed,
               present := false)
    decreases |m.closers[i].batch|
  {
    var batch := m.closers[i].batch;
    assert CloserTurns(i, |batch| + 1)[1..] == CloserTurns(i, |batch|);
    var next := CloserStep(m, i);
    if batch == [] {
      assert CloserTurns(i, 0) == [] && m.closed + batch == m.closed;
    } else {
      assert next.closers[i].Emptying? && next.closers[i].batch == batch[1..];
      CloserEmpties(next, i, policy);
      assert next.closers[i := Closer.Gone] == m.closers[i := Closer.Gone];
      assert m.closed + [batch[0]] + batch[1..] == m.closed + batch;
    }
  }

  /**
   A close that nothing interferes with ends: the handles are closed from the last hop to the first, the timer is
   disarmed, and the connection is closed and gone.
   */
  lemma CloseEnds(m: Managed, hasGrant: bool, policy: Policy)
    requires m.present
    ensures var t := Run(m, CloseAlone(|m.closers|, |m.handles|, hasGrant), policy);
            && t.status == Closed && !t.present && t.aborted && t.reconnectCanceled && !t.timer && t.handles == []
            && t.closed == m.closed + Reverse(m.handles) && t.closers == m.closers + [Closer.Gone]
            && t.connect == m.connect && t.recovery == m.recovery && t.attempt == m.attempt
            && t.everOpened == m.everOpened
  {
    var i := |m.closers|;
    var begun := StartClosing(m, hasGrant);
    Reversed(m.handles);
    assert CloseAlone(i, |m.handles|, hasGrant)[1..] ==
           CloserTurns(i, if hasGrant then |m.handles| + 2 else |m.handles| + 1);
    if hasGrant {
      assert CloserTurns(i, |m.handles| + 2)[1..] == CloserTurns(i, |m.handles| + 1);
      var emptying := CloserStep(begun, i);
      assert emptying.closers == m.closers + [Emptying(Reverse(m.handles))];
      CloserEmpties(emptying, i, policy);
      assert emptying.closers[i := Closer.Gone] == m.closers + [Closer.Gone];
    } else {
      CloserEmpties(begun, i, policy);
      assert begun.closers[i := Closer.Gone] == m.closers + [Closer.Gone];
    }
  }

  /** In every run a connection is gone exactly when a call of close has got to its end. */
  lemma {:induction false} GoneWhenClosed(trace: seq<Step>, policy: Policy)
    ensures Closer.Gone in After(trace, policy).closers <==> !After(trace, policy).present
    decreases |trace|
  {
    hide Next;
    if trace != [] {
      GoneWhenClosed(trace[..|trace| - 1], policy);
      GoneStep(After(trace[..|trace| - 1], policy), trace[|trace| - 1], policy);
    }
  }

  lemma ClosersUntouched(m: Managed, step: Step, policy: Policy)
    requires !step.CloseStep? && !step.CloserTurn?
    ensures Next(m, step, policy).closers == m.closers && Next(m, step, policy).present == m.present
  {
    if OfConnect(step) {
      ConnectUntouched(m, step, policy);
    } else {
      OthersUntouched(m, step, policy);
    }
  }

  lemma ConnectUntouched(m: Managed, step: Step, policy: Policy)
    requires OfConnect(step)
    ensures Next(m, step, policy).closers == m.closers && Next(m, step, policy).present == m.present
  {
    hide ConnectCaught, HandleLost, RecoveryStep, TimerFires, CancelReconnect, StartClosing, CloserStep, HopOpened;
    if step.OpenedStep? {
      OpenUntouched(m);
    }
  }

  lemma OpenUntouched(m: Managed)
    ensures HopOpened(m).closers == m.closers && HopOpened(m).present == m.present
  {
  }

  lemma OthersUntouched(m: Managed, step: Step, policy: Policy)
    requires !OfConnect(step) && !step.CloseStep? && !step.CloserTurn?
    ensures Next(m, step, policy).closers == m.closers && Next(m, step, policy).present == m.present
  {
    hide Prepared, GotCredentials, HopOpened, Discarded, Forwarded, ConnectFailed, StartClosing, CloserStep, Recover,
      ConnectCaught, HandleLost, RecoveryStep, TimerFires, CancelReconnect;
    match step {
      case CatchStep(setting) => CaughtUntouched(m, policy, setting);
      case LostStep(setting) => CaughtUntouched(m, policy, setting);
      case TimerStep(setting) => TimerUntouched(m, policy, setting);
      case _ => RestUntouched(m);
    }
  }

  lemma CaughtUntouched(m: Managed, policy: Policy, setting: bool)
    ensures ConnectCaught(m, policy, setting).closers == m.closers
    ensures ConnectCaught(m, policy, setting).present == m.present
    ensures HandleLost(m, policy, setting).closers == m.closers && HandleLost(m, policy, setting).present == m.present
  {
    hide Recover;
    RecoverUntouched(m.(connect := None), policy, setting);
    RecoverUntouched(m, policy, setting);
  }

  lemma TimerUntouched(m: Managed, policy: Policy, setting: bool)
    ensures TimerFires(m, policy, setting).closers == m.closers && TimerFires(m, policy, setting).present == m.present
  {
  }

  lemma RestUntouched(m: Managed)
    ensures RecoveryStep(m).closers == m.closers && RecoveryStep(m).present == m.present
    ensures CancelReconnect(m).closers == m.closers && CancelReconnect(m).present == m.present
  {
  }

  lemma RecoverUntouched(m: Managed, policy: Policy, setting: bool)
    ensures Recover(m, policy, setting).closers == m.closers && Recover(m, policy, setting).present == m.present
  {
  }

  lemma GoneReplaced(closers: seq<Closer>, i: nat, closer: Closer)
    requires i < |closers| && closers[i] != Closer.Gone
    ensures Closer.Gone in closers[i := closer] <==> closer == Closer.Gone || Closer.Gone in closers
  {
    var after := closers[i := closer];
    assert after[i] == closer;
    forall k | 0 <= k < |closers| && k != i ensures after[k] == closers[k] {
    }
    if Closer.Gone in closers {
      var k :| 0 <= k < |closers| && closers[k] == Closer.Gone;
      assert after[k] == Closer.Gone;
    }
  }

  lemma GoneStep(m: Managed, step: Step, policy: Policy)
    requires Closer.Gone in m.closers <==> !m.present
    ensures Closer.Gone in Next(m, step, policy).closers <==> !Next(m, step, policy).present
  {
    hide Reverse, Next;
    match step {
      case CloserTurn(i) =>
        assert Next(m, step, policy) == CloserStep(m, i) by { CloseSteps(m, step, policy); }
        if i < |m.closers| && m.closers[i] != Closer.Gone {
          GoneReplaced(m.closers, i, CloserStep(m, i).closers[i]);
        }
      case CloseStep(hasGrant) =>
        assert Next(m, step, policy) == StartClosing(m, hasGrant) by { CloseSteps(m, step, policy); }
        assert m.present ==> StartClosing(m, hasGrant).closers[..|m.closers|] == m.closers;
      case _ => ClosersUntouched(m, step, policy);
    }
  }

  lemma CloseSteps(m: Managed, step: Step, policy: Policy)
    ensures step.CloserTurn? ==> Next(m, step, policy) == CloserStep(m, step.index)
    ensures step.CloseStep? ==> Next(m, step, policy) == StartClosing(m, step.hasGrant)
  {
  }

  // ----- what the status tells -----

  /** What is shown of a connection that is not being closed. */
  predicate StatusTells(m: Managed) {
    !m.aborted ==>
      && (m.userCanceled ==> m.status == Failed)
      && if m.connect.Some? then
           match m.connect.value
           case Preparing => m.status == Resolving
           case Credentials(_, _) => m.status == Connecting
           case Opening(_, _) => m.status == Authenticating
           case Forwarding(_, _) => m.status == Authenticating
           case Discarding(_) => false
           case Rejected => m.status in {Resolving, Connecting, Authenticating}
         else if m.recovery.Some? then
           m.status == if m.recovery.value.willReconnect && !m.reconnectCanceled then Reconnecting else Failed
         else if m.timer then m.status == Reconnecting
         else m.status in {Ready, Failed}
  }

  lemma ConnectStatus(m: Managed, step: Step, policy: Policy)
    requires Control(m, policy) && StatusTells(m) && OfConnect(step)
    ensures StatusTells(Next(m, step, policy))
  {
    hide ConnectCaught, HandleLost, RecoveryStep, TimerFires, CancelReconnect, StartClosing, CloserStep;
  }

  lemma StatusStep(m: Managed, step: Step, policy: Policy)
    requires Control(m, policy) && StatusTells(m)
    ensures StatusTells(Next(m, step, policy))
  {
    if OfConnect(step) {
      ConnectStatus(m, step, policy);
    } else {
      OtherStatus(m, step, policy);
    }
  }

  lemma OtherStatus(m: Managed, step: Step, policy: Policy)
    requires Control(m, policy) && StatusTells(m) && !OfConnect(step)
    ensures StatusTells(Next(m, step, policy))
  {
    hide Reverse, Prepared, GotCredentials, HopOpened, Discarded, Forwarded, ConnectFailed;
  }

  /** At every point of every run the status tells what the connection is doing. */
  lemma {:induction false} StatusAlwaysTells(trace: seq<Step>, policy: Policy)
    ensures StatusTells(After(trace, policy))
    decreases |trace|
  {
    if trace != [] {
      var init := trace[..|trace| - 1];
      StatusAlwaysTells(init, policy);
      Reachable(init, policy);
      hide Control, Held, Next, StatusTells;
      StatusStep(After(init, policy), trace[|trace| - 1], policy);
    }
  }

  /** Only a connection that is reconnecting can be canceled; then it has failed, and its timer is disarmed. */
  lemma CancelFails(m: Managed, policy: Policy)
    ensures Next(m, CancelStep, policy) ==
            if m.present && m.status == Reconnecting
            then m.(status := Failed, timer := false, reconnectCanceled := true, userCanceled := true) else m
  {
  }

  lemma {:induction false} RunControl(m: Managed, steps: seq<Step>, policy: Policy)
    requires Control(m, policy)
    ensures Control(Run(m, steps, policy), policy)
    decreases |steps|
  {
    hide Control, Next;
    if steps != [] {
      ControlKept(m, steps[0], policy);
      RunControl(Next(m, steps[0], policy), steps[1..], policy);
    }
  }
}
