/**
 One managed SSH connection: connecting hop by hop, recovering after a loss, the reconnect timer,
 canceling and closing. A step is the code between two awaits; transports may succeed or fail freely.
 */
module ConnectionLifecycle {
  import opened Common

  /** A handle is named by the connect attempt and the hop it was opened for. */
  datatype Handle = Handle(attempt: nat, hop: nat)

  datatype Status = Resolving | Connecting | Authenticating | Ready | Reconnecting | Failed | Closing | Closed

  /** What an in-flight connect waits for. */
  datatype Connect =
    | Preparing
    | Credentials(hop: nat, hops: nat)
    | Opening(hop: nat, hops: nat)
    | Discarding(handle: Handle)
    | Forwarding(hop: nat, hops: nat)
    | Rejected

  /** An in-flight recovery: the handles it still has to close, and whether it will reconnect. */
  datatype Recovery = Recovery(batch: seq<Handle>, willReconnect: bool)

  /** One call of close. */
  datatype Closer = Revoking | Emptying(batch: seq<Handle>) | Gone

  datatype Managed = Managed(
    status: Status,
    handles: seq<Handle>,
    aborted: bool,
    present: bool,
    everReady: bool,
    reconnectCanceled: bool,
    timer: bool,
    reconnectAttempt: nat,
    attempt: nat,
    connect: Option<Connect>,
    recovery: Option<Recovery>,
    closers: seq<Closer>,
    // History: handles ever opened, those whose close has settled (resolved or rejected) in order, and whether a
    // user canceled the reconnect.
    everOpened: set<Handle>,
    discarded: set<Handle>,
    closed: seq<Handle>,
    userCanceled: bool)

  datatype Policy = Policy(automatic: bool, maxAttempts: nat)

  function Reverse<T>(s: seq<T>): seq<T> {
    if s == [] then [] else [s[|s| - 1]] + Reverse(s[..|s| - 1])
  }

  /** A new connection starts to connect at once. */
  function Created(): Managed {
    Managed(Resolving, [], false, true, false, false, false, 0, 1, Some(Preparing), None, [], {}, {}, [], false)
  }

  predicate Enabled(m: Managed, policy: Policy, setting: bool) {
    m.everReady && !m.reconnectCanceled && (policy.automatic || setting)
  }

  // ----- connect -----

  function Prepared(m: Managed, hops: nat): Managed {
    if m.connect == Some(Preparing) && hops > 0
    then m.(status := Connecting, connect := Some(Credentials(0, hops))) else m
  }

  function GotCredentials(m: Managed): Managed {
    if m.connect.Some? && m.connect.value.Credentials?
    then m.(status := Authenticating, connect := Some(Opening(m.connect.value.hop, m.connect.value.hops))) else m
  }

  /** The transport has opened the next hop. */
  function HopOpened(m: Managed): Managed {
    if m.connect.Some? && m.connect.value.Opening? then
      var hop, hops := m.connect.value.hop, m.connect.value.hops;
      var handle := Handle(m.attempt, hop);
      var counted := m.(everOpened := m.everOpened + {handle});
      if m.aborted || !m.present then
        counted.(connect := Some(Discarding(handle)), discarded := m.discarded + {handle})
      else
        var tracked := counted.(handles := m.handles + [handle]);
        if hop + 1 < hops then tracked.(connect := Some(Forwarding(hop, hops)))
        else
          tracked.(
            status := Ready, connect := None, everReady := true, reconnectCanceled := false, reconnectAttempt := 0)
    else m
  }

  function Discarded(m: Managed): Managed {
    if m.connect.Some? && m.connect.value.Discarding?
    then m.(connect := Some(Rejected), closed := m.closed + [m.connect.value.handle]) else m
  }

  function Forwarded(m: Managed): Managed {
    if m.connect.Some? && m.connect.value.Forwarding?
    then m.(status := Connecting, connect := Some(Credentials(m.connect.value.hop + 1, m.connect.value.hops)))
    else m
  }

  /** Anything the connect waits for may fail. */
  function ConnectFailed(m: Managed): Managed {
    if m.connect.Some? && !m.connect.value.Discarding? then m.(connect := Some(Rejected)) else m
  }

  // ----- recovery -----

  function Recover(m: Managed, policy: Policy, setting: bool): Managed {
    if m.recovery.Some? || m.aborted || !m.present then m
    else
      var will := Enabled(m, policy, setting) && m.reconnectAttempt < policy.maxAttempts;
      m.(
        status := if will then Reconnecting else Failed,
        reconnectAttempt := if will then m.reconnectAttempt + 1 else m.reconnectAttempt,
        recovery := Some(Recovery(Reverse(m.handles), will)),
        handles := [])
  }

  /** The catch of a rejected connect. */
  function ConnectCaught(m: Managed, policy: Policy, setting: bool): Managed {
    if m.connect == Some(Rejected) then Recover(m.(connect := None), policy, setting) else m
  }

  /** A handle closes by itself; only a ready connection recovers. */
  function HandleLost(m: Managed, policy: Policy, setting: bool): Managed {
    if m.status == Ready then Recover(m, policy, setting) else m
  }

  function RecoveryStep(m: Managed): Managed {
    if m.recovery.None? then m
    else
      var batch, will := m.recovery.value.batch, m.recovery.value.willReconnect;
      if batch != [] then
        m.(recovery := Some(Recovery(batch[1..], will)), closed := m.closed + [batch[0]])
      else m.(recovery := None, timer := m.timer || (will && !m.reconnectCanceled && !m.aborted && m.present))
  }

  function TimerFires(m: Managed, policy: Policy, setting: bool): Managed {
    if !m.timer then m
    else
      var fired := m.(timer := false);
      if m.aborted || !m.present then fired
      else if !Enabled(m, policy, setting) then fired.(status := Failed)
      else fired.(status := Resolving, attempt := m.attempt + 1, connect := Some(Preparing))
  }

  // ----- users -----

  function CancelReconnect(m: Managed): Managed {
    if !m.present || m.status != Reconnecting then m
    else m.(reconnectCanceled := true, timer := false, status := Failed, userCanceled := true)
  }

  function StartClosing(m: Managed, hasGrant: bool): Managed {
    if !m.present then m
    else
      var aborted := m.(status := Closing, timer := false, reconnectCanceled := true, aborted := true);
      if hasGrant then aborted.(closers := m.closers + [Revoking])
      else aborted.(closers := m.closers + [Emptying(Reverse(m.handles))], handles := [])
  }

  /** The next step of the i-th call of close. */
  function CloserStep(m: Managed, i: nat): Managed {
    if i >= |m.closers| then m
    else
      match m.closers[i]
      case Revoking => m.(closers := m.closers[i := Emptying(Reverse(m.handles))], handles := [])
      case Emptying(batch) =>
        if batch != [] then
          m.(closers := m.closers[i := Emptying(batch[1..])], closed := m.closed + [batch[0]])
        else m.(closers := m.closers[i := Gone], status := Closed, present := false)
      case Gone => m
  }

  // ----- every step -----

  datatype Step =
    | PreparedStep(hops: nat) | CredentialsStep | OpenedStep | DiscardedStep | ForwardedStep | FailStep
    | CatchStep(setting: bool) | LostStep(setting: bool) | RecoverStep | TimerStep(setting: bool)
    | CancelStep | CloseStep(hasGrant: bool) | CloserTurn(index: nat)

  function Next(m: Managed, step: Step, policy: Policy): Managed {
    match step
    case PreparedStep(hops) => Prepared(m, hops)
    case CredentialsStep => GotCredentials(m)
    case OpenedStep => HopOpened(m)
    case DiscardedStep => Discarded(m)
    case ForwardedStep => Forwarded(m)
    case FailStep => ConnectFailed(m)
    case CatchStep(setting) => ConnectCaught(m, policy, setting)
    case LostStep(setting) => HandleLost(m, policy, setting)
    case RecoverStep => RecoveryStep(m)
    case TimerStep(setting) => TimerFires(m, policy, setting)
    case CancelStep => CancelReconnect(m)
    case CloseStep(hasGrant) => StartClosing(m, hasGrant)
    case CloserTurn(index) => CloserStep(m, index)
  }

  function After(trace: seq<Step>, policy: Policy): Managed {
    if trace == [] then Created() else Next(After(trace[..|trace| - 1], policy), trace[|trace| - 1], policy)
  }

  // ----- what holds in every reachable state -----

  /** At most one of connect, recovery and timer is live. */
  predicate OneLive(m: Managed) {
    !(m.connect.Some? && m.recovery.Some?) && !(m.connect.Some? && m.timer) && !(m.recovery.Some? && m.timer)
  }

  ghost predicate Control(m: Managed, policy: Policy) {
    && OneLive(m)
    && (m.timer ==> !m.aborted && m.present && m.everReady)
    && (!m.present ==> m.aborted)
    && (m.closers != [] ==> m.aborted)
    && (m.aborted ==> m.reconnectCanceled && m.status != Ready)
    && (m.status in {Ready, Reconnecting} ==> m.connect.None?)
    && (m.status == Ready ==> m.recovery.None? && !m.timer)
    && (m.userCanceled ==> m.reconnectCanceled && m.connect.None? && !m.timer && m.status != Ready)
    && (m.attempt > 1 || m.status == Reconnecting ==> m.everReady)
    && (m.recovery.Some? && m.recovery.value.willReconnect ==> m.everReady)
    && m.reconnectAttempt <= policy.maxAttempts
  }

  predicate OfConnect(step: Step) {
    step.PreparedStep? || step.CredentialsStep? || step.OpenedStep? || step.DiscardedStep? || step.ForwardedStep?
    || step.FailStep?
  }

  lemma ConnectControl(m: Managed, step: Step, policy: Policy)
    requires Control(m, policy) && OfConnect(step)
    ensures Control(Next(m, step, policy), policy)
  {
  }

  lemma CloseControl(m: Managed, step: Step, policy: Policy)
    requires Control(m, policy) && (step.CancelStep? || step.CloseStep?)
    ensures Control(Next(m, step, policy), policy)
  {
    hide Reverse;
  }

  /** Once a connection is aborted, its closing cannot disturb the rest. */
  lemma AbortedControl(m: Managed, t: Managed, policy: Policy)
    requires Control(m, policy) && m.aborted && (t.status == m.status || t.status == Closed)
    requires t == m.(
      closers := t.closers, handles := t.handles, closed := t.closed, status := t.status, present := t.present)
    ensures Control(t, policy)
  {
  }

  lemma CloserControl(m: Managed, i: nat, policy: Policy)
    requires Control(m, policy)
    ensures Control(CloserStep(m, i), policy)
  {
    if i < |m.closers| {
      assert m.aborted;
      hide Reverse, Control;
      AbortedControl(m, CloserStep(m, i), policy);
    }
  }

  lemma ControlKept(m: Managed, step: Step, policy: Policy)
    requires Control(m, policy)
    ensures Control(Next(m, step, policy), policy)
  {
    hide Reverse;
    if OfConnect(step) {
      ConnectControl(m, step, policy);
    } else if step.CancelStep? || step.CloseStep? {
      CloseControl(m, step, policy);
    } else if step.CloserTurn? {
      CloserControl(m, step.index, policy);
    }
  }

  // ----- handles -----

  predicate InBatch(closer: Closer, h: Handle) {
    closer.Emptying? && h in closer.batch
  }

  predicate Recovering(m: Managed, h: Handle) {
    m.recovery.Some? && h in m.recovery.value.batch
  }

  predicate BeingClosed(m: Managed, h: Handle) {
    exists i :: 0 <= i < |m.closers| && InBatch(m.closers[i], h)
  }

  /** Tracked, or taken over by a recovery or a close that has not reached it yet. */
  predicate Remaining(m: Managed, h: Handle) {
    h in m.handles || Recovering(m, h) || BeingClosed(m, h)
  }

  /** Handles of the current attempt are tracked in the order of their hops; later hops are still to come. */
  ghost predicate Named(m: Managed) {
    && (forall k :: 0 <= k < |m.handles| ==> m.handles[k] == Handle(m.attempt, k))
    && (forall h :: h in m.everOpened ==> h.attempt <= m.attempt)
    && (m.timer || m.recovery.Some? || m.connect == Some(Preparing) ==> m.handles == [])
    && (m.connect == Some(Preparing) ==> forall h :: h in m.everOpened ==> h.attempt < m.attempt)
    && (m.connect.Some? ==>
          match m.connect.value
          case Credentials(hop, _) => NextHop(m, hop)
          case Opening(hop, _) => NextHop(m, hop)
          case Forwarding(hop, _) => NextHop(m, hop + 1)
          case Discarding(handle) => m.aborted
          case _ => true)
  }

  ghost predicate NextHop(m: Managed, hop: nat) {
    && (!m.aborted ==> |m.handles| == hop)
    && (forall h :: h in m.everOpened && h.attempt == m.attempt ==> h.hop < hop)
  }

  predicate Descending(batch: seq<Handle>) {
    forall i, j :: 0 <= i < j < |batch| ==> batch[i].attempt == batch[j].attempt && batch[i].hop > batch[j].hop
  }

  /** Batches run from the last hop to the first, and only one place holds handles at a time. */
  ghost predicate Exclusive(m: Managed) {
    && (m.recovery.Some? ==> Descending(m.recovery.value.batch))
    && (forall i :: 0 <= i < |m.closers| && m.closers[i].Emptying? ==> Descending(m.closers[i].batch))
    && (m.handles != [] ==> Empty(m.recovery) && forall i :: 0 <= i < |m.closers| ==> NoBatch(m.closers[i]))
    && (!Empty(m.recovery) ==> forall i :: 0 <= i < |m.closers| ==> NoBatch(m.closers[i]))
    && (forall i, j :: 0 <= i < j < |m.closers| ==> NoBatch(m.closers[i]) || NoBatch(m.closers[j]))
  }

  predicate Empty(recovery: Option<Recovery>) {
    recovery.None? || recovery.value.batch == []
  }

  predicate NoBatch(closer: Closer) {
    closer.Emptying? ==> closer.batch == []
  }

  /** Every handle ever opened is tracked, being closed, being discarded, or closed. */
  ghost predicate Accounted(m: Managed) {
    && (forall h :: h in m.everOpened ==>
          Remaining(m, h) || h in m.closed || m.connect == Some(Discarding(h)))
    && (forall h :: Remaining(m, h) ==> h in m.everOpened && h !in m.closed && h !in m.discarded)
    && (forall h :: h in m.closed || h in m.discarded ==> h in m.everOpened)
    && (m.connect.Some? && m.connect.value.Discarding? ==>
          m.connect.value.handle in m.discarded && m.connect.value.handle !in m.closed)
  }

  /** Of the tracked handles of one attempt, later hops close before earlier ones. */
  ghost predicate Ordered(m: Managed) {
    && (forall h, c :: Remaining(m, h) && c in m.closed && c !in m.discarded && c.attempt == h.attempt ==>
          h.hop < c.hop)
    && LastHopFirst(m)
  }

  ghost predicate LastHopFirst(m: Managed) {
    && (forall i, j :: 0 <= i < j < |m.closed| ==> m.closed[i] != m.closed[j])
    && (forall i, j :: 0 <= i < j < |m.closed| ==> ClosesBefore(m, m.closed[i], m.closed[j]))
  }

  predicate ClosesBefore(m: Managed, first: Handle, second: Handle) {
    first !in m.discarded && second !in m.discarded && first.attempt == second.attempt ==> first.hop > second.hop
  }

  ghost predicate Held(m: Managed) {
    Named(m) && Exclusive(m) && Accounted(m) && Ordered(m)
  }

  lemma {:induction false} Reversed<T>(s: seq<T>)
    ensures |Reverse(s)| == |s| && forall i :: 0 <= i < |s| ==> Reverse(s)[i] == s[|s| - 1 - i]
    ensures forall x :: x in Reverse(s) <==> x in s
  {
    if s != [] {
      Reversed(s[..|s| - 1]);
      assert s == s[..|s| - 1] + [s[|s| - 1]];
    }
  }

  lemma BatchOf(m: Managed)
    requires Named(m)
    ensures Descending(Reverse(m.handles)) && forall h :: h in Reverse(m.handles) <==> h in m.handles
    ensures Reverse(m.handles) == [] <==> m.handles == []
  {
    Reversed(m.handles);
  }

  /** Moving handles between places, without closing any. */
  lemma SameRemaining(m: Managed, t: Managed)
    requires Accounted(m) && Ordered(m)
    requires forall h :: Remaining(m, h) <==> Remaining(t, h)
    requires t.everOpened == m.everOpened && t.discarded == m.discarded && t.closed == m.closed
    requires m.connect.Some? && m.connect.value.Discarding? ==> t.connect == m.connect
    requires t.connect.Some? && t.connect.value.Discarding? ==> t.connect == m.connect
    ensures Accounted(t) && Ordered(t)
  {
    hide Remaining;
    assert forall c, d :: ClosesBefore(m, c, d) <==> ClosesBefore(t, c, d);
  }

  /** Closing one handle, the latest hop that remains of its attempt. */
  lemma OneClosed(m: Managed, t: Managed, c: Handle)
    requires Accounted(m) && Ordered(m) && Remaining(m, c)
    requires forall h :: Remaining(t, h) <==> Remaining(m, h) && h != c
    requires forall h :: Remaining(m, h) && h.attempt == c.attempt ==> h.hop <= c.hop
    requires t.everOpened == m.everOpened && t.discarded == m.discarded && t.closed == m.closed + [c]
    requires t.connect == m.connect
    ensures Accounted(t) && Ordered(t)
  {
    hide Remaining;
    forall i, j | 0 <= i < j < |t.closed|
      ensures t.closed[i] != t.closed[j] && ClosesBefore(t, t.closed[i], t.closed[j])
    {
      assert t.closed[i] in m.closed;
      assert j < |m.closed| ==> ClosesBefore(m, m.closed[i], m.closed[j]);
    }
  }

  lemma OpenedRemaining(m: Managed, t: Managed, handle: Handle)
    requires Accounted(m) && Ordered(m) && handle !in m.everOpened
    requires forall h :: h in m.everOpened && h.attempt == handle.attempt ==> h.hop < handle.hop
    requires forall h :: Remaining(t, h) <==> Remaining(m, h) || h == handle
    requires t.everOpened == m.everOpened + {handle} && t.discarded == m.discarded && t.closed == m.closed
    requires forall c :: c in m.closed && c !in m.discarded ==> c.attempt < handle.attempt
    requires !(m.connect.Some? && m.connect.value.Discarding?) && !(t.connect.Some? && t.connect.value.Discarding?)
    ensures Accounted(t) && Ordered(t)
  {
    hide Remaining;
    assert forall c, d :: ClosesBefore(m, c, d) <==> ClosesBefore(t, c, d);
  }

  /** A handle opened after the abort is discarded, never tracked. */
  lemma DiscardKept(m: Managed, hop: nat, hops: nat)
    requires Held(m) && m.connect == Some(Opening(hop, hops)) && m.aborted
    ensures var handle := Handle(m.attempt, hop);
            Held(m.(everOpened := m.everOpened + {handle}, discarded := m.discarded + {handle},
                    connect := Some(Discarding(handle))))
  {
    var handle := Handle(m.attempt, hop);
    var t := m.(everOpened := m.everOpened + {handle}, discarded := m.discarded + {handle},
      connect := Some(Discarding(handle)));
    assert handle !in m.everOpened;
    assert forall h :: Remaining(m, h) <==> Remaining(t, h);
    hide Remaining;
    forall i, j | 0 <= i < j < |m.closed| ensures ClosesBefore(t, m.closed[i], m.closed[j]) {
      assert ClosesBefore(m, m.closed[i], m.closed[j]);
    }
  }

  /** A handle opened in time is tracked as the last hop. */
  lemma TrackKept(m: Managed, hop: nat, hops: nat)
    requires Held(m) && m.connect == Some(Opening(hop, hops)) && !m.aborted && m.recovery.None? && m.closers == []
    ensures var handle := Handle(m.attempt, hop);
            Held(m.(
              everOpened := m.everOpened + {handle}, handles := m.handles + [handle], connect := None, timer := false))
    ensures forall h :: h in m.everOpened && h.attempt == m.attempt ==> h.hop < hop
  {
    var handle := Handle(m.attempt, hop);
    var t := m.(
      everOpened := m.everOpened + {handle}, handles := m.handles + [handle], connect := None, timer := false);
    forall h | h in m.everOpened && h.attempt == m.attempt ensures Remaining(m, h) {
      assert m.handles[h.hop] == h;
    }
    forall h ensures Remaining(t, h) <==> Remaining(m, h) || h == handle {
      assert h in t.handles <==> h in m.handles || h == handle;
    }
    OpenedRemaining(m, t, handle);
  }

  lemma OpenedKept(m: Managed, policy: Policy)
    requires Control(m, policy) && Held(m)
    ensures Held(HopOpened(m))
  {
    if m.connect.Some? && m.connect.value.Opening? {
      var hop, hops := m.connect.value.hop, m.connect.value.hops;
      if m.aborted || !m.present {
        DiscardKept(m, hop, hops);
      } else {
        TrackKept(m, hop, hops);
        var handle := Handle(m.attempt, hop);
        var t := m.(
          everOpened := m.everOpened + {handle}, handles := m.handles + [handle], connect := None, timer := false);
        Relabel(t, HopOpened(m));
      }
    }
  }

  /** The invariant looks at the handles only, and at what the connect knows about them. */
  lemma Relabel(m: Managed, t: Managed)
    requires Held(m) && Named(t)
    requires t.handles == m.handles && t.everOpened == m.everOpened
    requires t.discarded == m.discarded && t.closed == m.closed
    requires t.closers == m.closers && t.recovery == m.recovery
    requires m.connect.Some? && m.connect.value.Discarding? ==> t.connect == m.connect
    requires t.connect.Some? && t.connect.value.Discarding? ==> t.connect == m.connect
    ensures Held(t)
  {
    assert forall h :: Remaining(m, h) <==> Remaining(t, h);
    SameRemaining(m, t);
  }

  lemma DiscardedKept(m: Managed)
    requires Held(m)
    ensures Held(Discarded(m))
  {
    if m.connect.Some? && m.connect.value.Discarding? {
      var t := Discarded(m);
      assert forall h :: Remaining(m, h) <==> Remaining(t, h);
      hide Remaining;
      forall i, j | 0 <= i < j < |t.closed|
        ensures t.closed[i] != t.closed[j] && ClosesBefore(t, t.closed[i], t.closed[j])
      {
        assert t.closed[i] in m.closed;
        assert j < |m.closed| ==> ClosesBefore(m, m.closed[i], m.closed[j]);
      }
    }
  }

  lemma RecoverKept(m: Managed, policy: Policy, setting: bool)
    requires Held(m) && m.connect.None? && (m.recovery.None? ==> m.closers == [] || m.aborted)
    ensures Held(Recover(m, policy, setting))
  {
    if m.recovery.None? && !m.aborted && m.present {
      var t := Recover(m, policy, setting);
      BatchOf(m);
      assert forall h :: Remaining(m, h) <==> Remaining(t, h);
      SameRemaining(m, t);
    }
  }

  lemma FirstIsLast(batch: seq<Handle>)
    requires Descending(batch) && batch != []
    ensures forall h :: h in batch ==> h.attempt == batch[0].attempt && h.hop <= batch[0].hop
    ensures forall h :: h in batch[1..] <==> h in batch && h != batch[0]
    ensures Descending(batch[1..])
  {
    assert batch == [batch[0]] + batch[1..];
  }

  /** While a recovery closes handles, nobody else holds any. */
  lemma RecoveringOnly(m: Managed, t: Managed)
    requires Exclusive(m) && m.recovery.Some? && m.recovery.value.batch != []
    requires t.closers == m.closers && t.handles == m.handles == [] && t.recovery.Some?
    ensures forall h :: Remaining(t, h) <==> h in t.recovery.value.batch
  {
    forall h ensures !BeingClosed(t, h) {
      forall i | 0 <= i < |t.closers| ensures !InBatch(t.closers[i], h) {
        assert NoBatch(m.closers[i]);
      }
    }
  }

  lemma RecoveryClosesKept(m: Managed)
    requires Held(m) && m.recovery.Some? && m.recovery.value.batch != []
    ensures Held(RecoveryStep(m))
  {
    var t := RecoveryStep(m);
    var batch := m.recovery.value.batch;
    FirstIsLast(batch);
    RecoveringOnly(m, m);
    RecoveringOnly(m, t);
    hide Remaining, Descending;
    OneClosed(m, t, batch[0]);
  }

  lemma RecoveryEndsKept(m: Managed)
    requires Held(m) && m.recovery.Some? && m.recovery.value.batch == []
    ensures Held(RecoveryStep(m))
  {
    var t := RecoveryStep(m);
    assert forall h :: BeingClosed(t, h) <==> BeingClosed(m, h);
    assert forall h :: Recovering(t, h) <==> Recovering(m, h);
    hide BeingClosed, Recovering;
    SameRemaining(m, t);
  }

  lemma RecoveryStepKept(m: Managed)
    requires Held(m)
    ensures Held(RecoveryStep(m))
  {
    hide Held;
    if m.recovery.Some? {
      if m.recovery.value.batch != [] {
        RecoveryClosesKept(m);
      } else {
        RecoveryEndsKept(m);
      }
    }
  }

  /** A close takes over the tracked handles. */
  lemma TakeOverKept(m: Managed, t: Managed, i: nat)
    requires Held(m) && m.aborted && t.aborted && i < |t.closers| && |m.closers| <= |t.closers|
    requires t.closers[i] == Emptying(Reverse(m.handles)) && t.handles == []
    requires forall k :: 0 <= k < |t.closers| && k != i ==> k < |m.closers| && t.closers[k] == m.closers[k]
    requires i < |m.closers| ==> NoBatch(m.closers[i])
    requires t.everOpened == m.everOpened && t.discarded == m.discarded && t.closed == m.closed
    requires t.connect == m.connect && t.recovery == m.recovery && t.attempt == m.attempt && !t.timer
    ensures Held(t)
  {
    BatchOf(m);
    forall h | h in m.handles || BeingClosed(m, h) ensures BeingClosed(t, h) {
      if h in m.handles {
        assert InBatch(t.closers[i], h);
      } else {
        var k :| 0 <= k < |m.closers| && InBatch(m.closers[k], h);
        assert InBatch(t.closers[k], h);
      }
    }
    forall h | BeingClosed(t, h) && h !in m.handles ensures BeingClosed(m, h) {
      var k :| 0 <= k < |t.closers| && InBatch(t.closers[k], h);
      assert InBatch(m.closers[k], h);
    }
    SameRemaining(m, t);
  }

  lemma OnlyCloser(m: Managed, t: Managed, i: nat)
    requires Exclusive(m) && i < |m.closers| && !NoBatch(m.closers[i])
    requires t.handles == m.handles && t.recovery == m.recovery && |t.closers| == |m.closers|
    requires t.closers[i].Emptying? && forall k :: 0 <= k < |m.closers| && k != i ==> t.closers[k] == m.closers[k]
    ensures forall h :: Remaining(t, h) <==> h in t.closers[i].batch
  {
    assert m.handles == [] && Empty(m.recovery);
    forall h ensures BeingClosed(t, h) <==> h in t.closers[i].batch {
      assert h in t.closers[i].batch ==> InBatch(t.closers[i], h);
      forall k | 0 <= k < |t.closers| && k != i ensures !InBatch(t.closers[k], h) {
        assert NoBatch(m.closers[k]);
      }
    }
  }

  lemma CloserShrinks(m: Managed, i: nat)
    requires Named(m) && Exclusive(m) && i < |m.closers| && m.closers[i].Emptying? && m.closers[i].batch != []
    ensures Named(CloserStep(m, i)) && Exclusive(CloserStep(m, i))
  {
    FirstIsLast(m.closers[i].batch);
    hide Descending;
  }

  lemma CloserClosesKept(m: Managed, i: nat)
    requires Held(m) && i < |m.closers| && m.closers[i].Emptying? && m.closers[i].batch != []
    ensures Held(CloserStep(m, i))
  {
    hide Remaining, Descending, Exclusive, Named, Accounted, Ordered;
    var t := CloserStep(m, i);
    var batch := m.closers[i].batch;
    CloserShrinks(m, i);
    FirstOfCloser(m, i);
    OnlyCloser(m, m, i);
    OnlyCloser(m, t, i);
    OneClosed(m, t, batch[0]);
  }

  lemma FirstOfCloser(m: Managed, i: nat)
    requires Exclusive(m) && i < |m.closers| && m.closers[i].Emptying? && m.closers[i].batch != []
    ensures var batch := m.closers[i].batch;
            && (forall h :: h in batch ==> h.attempt == batch[0].attempt && h.hop <= batch[0].hop)
            && (forall h :: h in batch[1..] <==> h in batch && h != batch[0])
  {
    FirstIsLast(m.closers[i].batch);
  }

  lemma CloserEndsKept(m: Managed, t: Managed, i: nat)
    requires Held(m) && i < |m.closers| && NoBatch(m.closers[i])
    requires t == m.(closers := m.closers[i := Gone], status := t.status, present := t.present)
    ensures Held(t)
  {
    forall h ensures Remaining(m, h) <==> Remaining(t, h) {
      if BeingClosed(m, h) {
        var k :| 0 <= k < |m.closers| && InBatch(m.closers[k], h);
        assert InBatch(t.closers[k], h);
      }
      if BeingClosed(t, h) {
        var k :| 0 <= k < |t.closers| && InBatch(t.closers[k], h);
        assert InBatch(m.closers[k], h);
      }
    }
    SameRemaining(m, t);
  }

  lemma CloserStepKept(m: Managed, i: nat, policy: Policy)
    requires Control(m, policy) && Held(m)
    ensures Held(CloserStep(m, i))
  {
    if i < |m.closers| {
      match m.closers[i]
      case Revoking => TakeOverKept(m, CloserStep(m, i), i);
      case Emptying(batch) =>
        if batch != [] { CloserClosesKept(m, i); } else { CloserEndsKept(m, CloserStep(m, i), i); }
      case Gone =>
    }
  }

  lemma StartClosingKept(m: Managed, hasGrant: bool)
    requires Held(m)
    ensures Held(StartClosing(m, hasGrant))
  {
    if m.present {
      var aborted := m.(status := Closing, timer := false, reconnectCanceled := true, aborted := true);
      Relabel(m, aborted);
      if hasGrant {
        CloserAddedKept(aborted);
      } else {
        TakeOverKept(aborted, StartClosing(m, hasGrant), |m.closers|);
      }
    }
  }

  lemma CloserAddedKept(m: Managed)
    requires Held(m)
    ensures Held(m.(closers := m.closers + [Revoking]))
  {
    var t := m.(closers := m.closers + [Revoking]);
    forall h ensures Remaining(m, h) <==> Remaining(t, h) {
      if BeingClosed(m, h) {
        var k :| 0 <= k < |m.closers| && InBatch(m.closers[k], h);
        assert InBatch(t.closers[k], h);
      }
      if BeingClosed(t, h) {
        var k :| 0 <= k < |t.closers| && InBatch(t.closers[k], h);
        assert InBatch(m.closers[k], h);
      }
    }
    SameRemaining(m, t);
  }

  /** Steps that move no handle. */
  lemma QuietKept(m: Managed, step: Step, policy: Policy)
    requires Control(m, policy) && Held(m)
    requires step.PreparedStep? || step.CredentialsStep? || step.ForwardedStep? || step.FailStep? || step.TimerStep?
             || step.CancelStep?
    ensures Held(Next(m, step, policy))
  {
    hide Exclusive, Accounted, Ordered;
    Relabel(m, Next(m, step, policy));
  }

  lemma HandlesKept(m: Managed, step: Step, policy: Policy)
    requires Control(m, policy) && Held(m)
    ensures Held(Next(m, step, policy))
  {
    hide Exclusive, Accounted, Ordered, HopOpened, Discarded, Recover, RecoveryStep, StartClosing, CloserStep,
      Prepared, GotCredentials, Forwarded, ConnectFailed, TimerFires, CancelReconnect;
    match step {
      case OpenedStep => OpenedKept(m, policy);
      case DiscardedStep => DiscardedKept(m);
      case CatchStep(setting) =>
        if m.connect == Some(Rejected) {
          Relabel(m, m.(connect := None));
          RecoverKept(m.(connect := None), policy, setting);
        }
      case LostStep(setting) => if m.status == Ready { RecoverKept(m, policy, setting); }
      case RecoverStep => RecoveryStepKept(m);
      case CloseStep(hasGrant) => StartClosingKept(m, hasGrant);
      case CloserTurn(index) => CloserStepKept(m, index, policy);
      case _ => QuietKept(m, step, policy);
    }
  }

  /** Every state of every run satisfies both invariants. */
  lemma {:induction false} Reachable(trace: seq<Step>, policy: Policy)
    ensures Control(After(trace, policy), policy) && Held(After(trace, policy))
  {
    if trace != [] {
      var init := trace[..|trace| - 1];
      Reachable(init, policy);
      hide Control, Held, Next;
      ControlKept(After(init, policy), trace[|trace| - 1], policy);
      HandlesKept(After(init, policy), trace[|trace| - 1], policy);
    }
  }

  // ----- safety over whole runs -----

  /** At most one of connect, recovery and armed timer is live, and attempts stay within the policy. */
  lemma OneAtATime(trace: seq<Step>, policy: Policy)
    ensures var m := After(trace, policy);
            && OneLive(m) && (m.timer ==> !m.aborted && m.present)
            && m.reconnectAttempt <= policy.maxAttempts
            && (m.attempt > 1 || m.timer || m.status == Reconnecting ==> m.everReady)
  {
    Reachable(trace, policy);
    hide After, Held;
  }

  /** Closing and a user's cancellation are final: whatever comes later, ready is never entered again. */
  predicate Ended(m: Managed) {
    m.aborted || m.userCanceled
  }

  lemma EndedStep(m: Managed, step: Step, policy: Policy)
    requires Control(m, policy) && Ended(m)
    ensures var t := Next(m, step, policy); Ended(t) && t.attempt == m.attempt
  {
  }

  lemma EndedNotReady(m: Managed, policy: Policy)
    requires Control(m, policy) && Ended(m)
    ensures m.status != Ready
  {
  }

  lemma AfterStep(trace: seq<Step>, step: Step, policy: Policy)
    ensures After(trace + [step], policy) == Next(After(trace, policy), step, policy)
  {
    hide Next;
    assert (trace + [step])[..|trace|] == trace;
  }

  lemma {:induction false} NeverReadyAgain(before: seq<Step>, later: seq<Step>, policy: Policy)
    requires Ended(After(before, policy))
    ensures Ended(After(before + later, policy)) && After(before + later, policy).status != Ready
    ensures After(before + later, policy).attempt == After(before, policy).attempt
  {
    hide After, Held, Next, Ended, Control;
    Reachable(before + later, policy);
    if later == [] {
      assert before + later == before;
    } else {
      var init, step := later[..|later| - 1], later[|later| - 1];
      NeverReadyAgain(before, init, policy);
      Reachable(before + init, policy);
      EndedStep(After(before + init, policy), step, policy);
      AfterStep(before + init, step, policy);
      assert before + later == before + init + [step];
    }
    EndedNotReady(After(before + later, policy), policy);
  }

  /** CancelReconnect and close lead there whenever they are accepted. */
  lemma CancelAndCloseEnd(m: Managed, hasGrant: bool)
    ensures m.present && m.status == Reconnecting ==> Ended(CancelReconnect(m))
    ensures m.present ==> Ended(StartClosing(m, hasGrant))
  {
  }

  /** After an accepted cancel or close nothing that follows makes the connection ready or attempts it again. */
  lemma EndsForGood(before: seq<Step>, step: Step, later: seq<Step>, policy: Policy)
    requires var m := After(before, policy);
             m.present && (step.CloseStep? || (step == CancelStep && m.status == Reconnecting))
    ensures After(before + [step] + later, policy).status != Ready
    ensures After(before + [step] + later, policy).attempt == After(before, policy).attempt
  {
    var m := After(before, policy);
    AfterStep(before, step, policy);
    hide After;
    CancelAndCloseEnd(m, step.CloseStep? && step.hasGrant);
    assert Next(m, step, policy).attempt == m.attempt;
    NeverReadyAgain(before + [step], later, policy);
  }

  /** Every opened handle is tracked, being closed, or closed; tracked ones close from the last hop to the first. */
  lemma HandlesAccounted(trace: seq<Step>, policy: Policy)
    ensures var m := After(trace, policy);
            && (forall h :: h in m.everOpened ==>
                  Remaining(m, h) || h in m.closed || m.connect == Some(Discarding(h)))
            && LastHopFirst(m)
  {
    Reachable(trace, policy);
    hide After, Control;
  }

  /** Once a connection is gone and nothing is in flight, every handle it ever opened is closed. */
  lemma NothingLeaks(trace: seq<Step>, policy: Policy)
    requires var m := After(trace, policy);
             && !m.present && m.connect.None? && m.recovery.None?
             && forall i :: 0 <= i < |m.closers| ==> m.closers[i] == Gone
    ensures forall h :: h in After(trace, policy).everOpened ==> h in After(trace, policy).closed
  {
    Reachable(trace, policy);
    GoneHoldsNothing(trace, policy);
    hide After, Control;
  }

  /** A close that got past revoking its grant has taken over every handle. */
  predicate HoldsNothing(m: Managed) {
    && (!m.present ==> m.handles == [])
    && (forall i :: 0 <= i < |m.closers| && m.closers[i] != Revoking ==> m.handles == [])
  }

  lemma HoldsNothingKept(m: Managed, step: Step, policy: Policy)
    requires Control(m, policy) && HoldsNothing(m)
    ensures HoldsNothing(Next(m, step, policy))
  {
    hide Reverse;
    if step.CloserTurn? && step.index < |m.closers| {
      assert m.closers[step.index] != Revoking ==> m.handles == [];
    }
  }

  lemma {:induction false} GoneHoldsNothing(trace: seq<Step>, policy: Policy)
    ensures HoldsNothing(After(trace, policy))
  {
    if trace != [] {
      var init := trace[..|trace| - 1];
      GoneHoldsNothing(init, policy);
      Reachable(init, policy);
      hide Held, Next, HoldsNothing, Control;
      HoldsNothingKept(After(init, policy), trace[|trace| - 1], policy);
    }
  }
}
