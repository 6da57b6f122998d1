/** The service's record of one connection, with one method for each step between two awaits. */
module ConnectionService {
  import opened Common
  import opened ConnectionLifecycle

  class ManagedConnection {
    const policy: Policy
    var state: Status
    var handles: seq<Handle>
    var aborted: bool
    var registered: bool
    var everReady: bool
    var automaticReconnectCanceled: bool
    var reconnectTimer: bool
    var reconnectAttempt: nat
    var executionGeneration: nat
    /** The calls in flight. */
    var connect: Option<Connect>
    var recovery: Option<Recovery>
    var closers: seq<Closer>
    ghost var everOpened: set<Handle>
    ghost var discarded: set<Handle>
    ghost var closed: seq<Handle>
    ghost var userCanceled: bool
    ghost var trace: seq<Step>

    ghost function Now(): Managed
      reads this
    {
      Managed(
        state, handles, aborted, registered, everReady, automaticReconnectCanceled, reconnectTimer, reconnectAttempt,
        executionGeneration, connect, recovery, closers, everOpened, discarded, closed, userCanceled)
    }

    ghost predicate Valid()
      reads this
    {
      Now() == After(trace, policy)
    }

    constructor (policy: Policy)
      ensures Valid() && this.policy == policy && trace == []
    {
      this.policy := policy;
      state, handles, aborted, registered, everReady := Resolving, [], false, true, false;
      automaticReconnectCanceled, reconnectTimer, reconnectAttempt, executionGeneration := false, false, 0, 1;
      connect, recovery, closers := Some(Preparing), None, [];
      everOpened, discarded, closed, userCanceled, trace := {}, {}, [], false, [];
    }

    /** Takes the tracked handles away, the last hop first. */
    method TakeHandles() returns (batch: seq<Handle>)
      modifies `handles
      ensures batch == Reverse(old(handles)) && handles == []
    {
      batch := [];
      while handles != []
        invariant Reverse(old(handles)) == batch + Reverse(handles)
        decreases |handles|
      {
        batch := batch + [handles[|handles| - 1]];
        handles := handles[..|handles| - 1];
      }
    }

    predicate AutomaticReconnectEnabled(setting: bool)
      reads this
    {
      everReady && !automaticReconnectCanceled && (policy.automatic || setting)
    }

    // ----- connect -----

    method ChainResolved(hops: nat)
      modifies `state, `connect
      ensures Now() == Prepared(old(Now()), hops)
    {
      if connect == Some(Preparing) && hops > 0 {
        state := Connecting;
        connect := Some(Credentials(0, hops));
      }
    }

    method CredentialsResolved()
      modifies `state, `connect
      ensures Now() == GotCredentials(old(Now()))
    {
      if connect.Some? && connect.value.Credentials? {
        state := Authenticating;
        connect := Some(Opening(connect.value.hop, connect.value.hops));
      }
    }

    method TransportConnected()
      modifies `state, `handles, `connect, `everReady, `automaticReconnectCanceled, `reconnectAttempt,
        `everOpened, `discarded
      ensures Now() == HopOpened(old(Now()))
    {
      if connect.Some? && connect.value.Opening? {
        var hop, hops := connect.value.hop, connect.value.hops;
        var handle := Handle(executionGeneration, hop);
        everOpened := everOpened + {handle};
        if aborted || !registered {
          discarded := discarded + {handle};
          connect := Some(Discarding(handle));
          return;
        }
        handles := handles + [handle];
        if hop + 1 < hops {
          connect := Some(Forwarding(hop, hops));
        } else {
          BecomeReady();
        }
      }
    }

    method BecomeReady()
      modifies `state, `connect, `everReady, `automaticReconnectCanceled, `reconnectAttempt
      ensures Now() == old(Now()).(
        status := Ready, connect := None, everReady := true, reconnectCanceled := false, reconnectAttempt := 0)
    {
      reconnectAttempt := 0;
      everReady := true;
      automaticReconnectCanceled := false;
      state := Ready;
      connect := None;
    }

    method LateHandleClosed()
      modifies `connect, `closed
      ensures Now() == Discarded(old(Now()))
    {
      if connect.Some? && connect.value.Discarding? {
        closed := closed + [connect.value.handle];
        connect := Some(Rejected);
      }
    }

    method ForwardOpened()
      modifies `state, `connect
      ensures Now() == Forwarded(old(Now()))
    {
      if connect.Some? && connect.value.Forwarding? {
        state := Connecting;
        connect := Some(Credentials(connect.value.hop + 1, connect.value.hops));
      }
    }

    method ConnectThrew()
      modifies `connect
      ensures Now() == ConnectFailed(old(Now()))
    {
      if connect.Some? && !connect.value.Discarding? {
        connect := Some(Rejected);
      }
    }

    // ----- recovery -----

    method StartRecovery(setting: bool)
      modifies `state, `handles, `reconnectAttempt, `recovery
      ensures Now() == Recover(old(Now()), policy, setting)
    {
      if recovery.Some? || aborted || !registered { return; }
      var willReconnect := AutomaticReconnectEnabled(setting) && reconnectAttempt < policy.maxAttempts;
      if willReconnect {
        reconnectAttempt := reconnectAttempt + 1;
        state := Reconnecting;
      } else {
        state := Failed;
      }
      var batch := TakeHandles();
      recovery := Some(Recovery(batch, willReconnect));
    }

    method ConnectRejected(setting: bool)
      modifies `state, `handles, `reconnectAttempt, `recovery, `connect
      ensures Now() == ConnectCaught(old(Now()), policy, setting)
    {
      if connect == Some(Rejected) {
        connect := None;
        StartRecovery(setting);
      }
    }

    method OnClose(setting: bool)
      modifies `state, `handles, `reconnectAttempt, `recovery
      ensures Now() == HandleLost(old(Now()), policy, setting)
    {
      if state == Ready {
        StartRecovery(setting);
      }
    }

    /** A recovery closes its next handle, or arms the timer when all are closed. */
    method ContinueRecovery()
      modifies `recovery, `reconnectTimer, `closed
      ensures Now() == RecoveryStep(old(Now()))
    {
      if recovery.None? { return; }
      var batch, willReconnect := recovery.value.batch, recovery.value.willReconnect;
      if batch != [] {
        closed := closed + [batch[0]];
        recovery := Some(Recovery(batch[1..], willReconnect));
        return;
      }
      if willReconnect && !automaticReconnectCanceled && !aborted && registered {
        reconnectTimer := true;
      }
      recovery := None;
    }

    method ReconnectTimerFired(setting: bool)
      modifies `state, `reconnectTimer, `executionGeneration, `connect
      ensures Now() == TimerFires(old(Now()), policy, setting)
    {
      if !reconnectTimer { return; }
      reconnectTimer := false;
      if aborted || !registered { return; }
      if !AutomaticReconnectEnabled(setting) {
        state := Failed;
        return;
      }
      state := Resolving;
      executionGeneration := executionGeneration + 1;
      connect := Some(Preparing);
    }

    // ----- users -----

    /** Returns false where the original refuses. */
    method CancelReconnect() returns (accepted: bool)
      modifies `state, `automaticReconnectCanceled, `reconnectTimer, `userCanceled
      ensures Now() == ConnectionLifecycle.CancelReconnect(old(Now()))
      ensures accepted <==> old(registered) && old(state) == Reconnecting
    {
      if !registered || state != Reconnecting { return false; }
      automaticReconnectCanceled := true;
      reconnectTimer := false;
      state := Failed;
      userCanceled := true;
      accepted := true;
    }

    method Close(hasGrant: bool)
      modifies `state, `handles, `aborted, `automaticReconnectCanceled, `reconnectTimer, `closers
      ensures Now() == StartClosing(old(Now()), hasGrant)
    {
      if !registered { return; }
      state := Closing;
      reconnectTimer := false;
      automaticReconnectCanceled := true;
      aborted := true;
      if hasGrant {
        closers := closers + [Revoking];
      } else {
        var batch := TakeHandles();
        closers := closers + [Emptying(batch)];
      }
    }

    method ContinueClose(i: nat)
      modifies `state, `handles, `registered, `closers, `closed
      ensures Now() == CloserStep(old(Now()), i)
    {
      if i >= |closers| { return; }
      match closers[i] {
        case Revoking =>
          var batch := TakeHandles();
          closers := closers[i := Emptying(batch)];
        case Emptying(batch) =>
          if batch != [] {
            closed := closed + [batch[0]];
            closers := closers[i := Emptying(batch[1..])];
          } else {
            closers := closers[i := Gone];
            state := Closed;
            registered := false;
          }
        case Gone =>
      }
    }

    // ----- any interleaving -----

    method Perform(step: Step)
      modifies `state, `handles, `aborted, `registered, `everReady, `automaticReconnectCanceled, `reconnectTimer,
        `reconnectAttempt, `executionGeneration, `connect, `recovery, `closers, `everOpened, `discarded, `closed,
        `userCanceled
      ensures Now() == Next(old(Now()), step, policy)
    {
      hide Prepared, GotCredentials, HopOpened, Discarded, Forwarded, ConnectFailed, ConnectCaught, HandleLost,
        RecoveryStep, TimerFires, ConnectionLifecycle.CancelReconnect, StartClosing, CloserStep;
      match step {
        case PreparedStep(hops) => ChainResolved(hops);
        case CredentialsStep => CredentialsResolved();
        case OpenedStep => TransportConnected();
        case DiscardedStep => LateHandleClosed();
        case ForwardedStep => ForwardOpened();
        case FailStep => ConnectThrew();
        case CatchStep(setting) => ConnectRejected(setting);
        case LostStep(setting) => OnClose(setting);
        case RecoverStep => ContinueRecovery();
        case TimerStep(setting) => ReconnectTimerFired(setting);
        case CancelStep => var _ := CancelReconnect();
        case CloseStep(hasGrant) => Close(hasGrant);
        case CloserTurn(index) => ContinueClose(index);
      }
    }

    /** Whatever happens next, the object stays in the state its steps lead to. */
    method Take(step: Step)
      requires Valid()
      modifies this
      ensures Valid() && trace == old(trace) + [step]
    {
      hide After, Next;
      Perform(step);
      trace := trace + [step];
      AfterStep(old(trace), step, policy);
    }
  }
}
