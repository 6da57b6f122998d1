/**
 Progress of reviewed commands: what was asked for and granted does start. The safety of the protocol alone
 would also hold of a service that starts nothing.
 */
module CommandProgress {
  import opened Common
  import opened ReviewedCommands

  /** Steps that leave the stored rows to the service. */
  predicate Undisturbing(trace: seq<Step>) {
    forall k :: 0 <= k < |trace| ==> !trace[k].AlterCall? && !trace[k].AlterApproval?
  }

  predicate NotYetStarted(phase: Phase) {
    phase != Started && phase != Finished
  }

  predicate BeforeWaiting(phase: Phase) {
    phase == Preparing || phase == Reviewing
  }

  /** A command that has not started has no source yet. */
  predicate OpenCall(s: State, slot: Slot) {
    slot in s.calls && slot in s.executions && NotYetStarted(s.executions[slot].phase) ==> s.calls[slot].source.None?
  }

  /** An approval is that of the command it is stored for, and expires when the review does. */
  predicate OwnApproval(s: State, id: Slot) {
    id in s.approvals ==>
      && s.approvals[id].callId == id && id in s.executions
      && !BeforeWaiting(s.executions[id].phase) && s.approvals[id].expiresAt == s.executions[id].expiresAt
  }

  ghost predicate Untouched(s: State) {
    && (forall slot :: OpenCall(s, slot))
    && (forall id :: OwnApproval(s, id))
    && (forall slot :: slot in s.calls ==> slot in s.executions && s.executions[slot].phase != Preparing)
  }

  /** Commands move forward, calls keep their sources, approvals their command and time. */
  ghost predicate Forward(s: State, t: State) {
    && t.executions.Keys == s.executions.Keys && t.calls.Keys == s.calls.Keys && t.approvals.Keys == s.approvals.Keys
    && (forall slot :: slot in s.executions ==> MovesOn(s.executions[slot], t.executions[slot]))
    && (forall slot :: slot in s.calls ==> t.calls[slot].source == s.calls[slot].source)
    && (forall id :: id in s.approvals ==>
          t.approvals[id].callId == s.approvals[id].callId && t.approvals[id].expiresAt == s.approvals[id].expiresAt)
  }

  predicate MovesOn(before: Execution, after: Execution) {
    && after.expiresAt == before.expiresAt
    && (NotYetStarted(after.phase) ==> NotYetStarted(before.phase))
    && (BeforeWaiting(after.phase) ==> BeforeWaiting(before.phase))
    && (after.phase == Preparing ==> before.phase == Preparing)
  }

  lemma ForwardUntouched(s: State, t: State)
    requires Untouched(s) && Forward(s, t)
    ensures Untouched(t)
  {
    forall slot ensures OpenCall(t, slot) {
      assert OpenCall(s, slot);
    }
    forall id ensures OwnApproval(t, id) {
      assert OwnApproval(s, id);
    }
  }

  lemma MovesTwice(a: Execution, b: Execution, c: Execution)
    requires MovesOn(a, b) && MovesOn(b, c)
    ensures MovesOn(a, c)
  {
  }

  lemma ForwardTwice(s: State, t: State, u: State)
    requires Forward(s, t) && Forward(t, u)
    ensures Forward(s, u)
  {
    hide MovesOn;
    forall slot | slot in s.executions ensures MovesOn(s.executions[slot], u.executions[slot]) {
      MovesTwice(s.executions[slot], t.executions[slot], u.executions[slot]);
    }
  }

  /** A state in which only other things differ. */
  lemma SameForward(s: State, t: State)
    requires t.executions == s.executions && t.calls == s.calls && t.approvals == s.approvals
    ensures Forward(s, t)
  {
  }

  lemma CallsForward(s: State, t: State)
    requires t.executions == s.executions && t.approvals == s.approvals && t.calls.Keys == s.calls.Keys
    requires forall slot :: slot in s.calls ==> t.calls[slot].source == s.calls[slot].source
    ensures Forward(s, t)
  {
  }

  lemma MovesSelf()
    ensures forall e: Execution :: MovesOn(e, e)
  {
  }

  lemma PhaseForward(s: State, slot: Slot, phase: Phase)
    requires slot in s.executions && MovesOn(s.executions[slot], s.executions[slot].(phase := phase))
    ensures Forward(s, SetPhase(s, slot, phase))
  {
    hide MovesOn;
    MovesSelf();
  }

  lemma VerdictForward(s: State, id: Slot, verdict: Verdict)
    requires id in s.approvals
    ensures Forward(s, SetVerdict(s, id, verdict))
  {
  }

  lemma FailForward(s: State, slot: Slot)
    requires slot in s.executions
    ensures Forward(s, Fail(s, slot))
  {
    hide Forward, SetPhase, FailRun, CallOver, EndsCanceled, MovesOn;
    var stored :=
      if slot in s.calls && !CallOver(s.calls[slot].state)
      then s.(calls := s.calls[slot :=
        s.calls[slot].(state := if EndsCanceled(s, slot.run) then Canceled else Failed)])
      else s;
    CallsForward(s, stored);
    FailRunExecutions(stored, slot.run);
    SameForward(stored, FailRun(stored, slot.run));
    ForwardTwice(s, stored, FailRun(stored, slot.run));
    FinishMoves(stored.executions[slot]);
    PhaseForward(FailRun(stored, slot.run), slot, Finished);
    ForwardTwice(s, FailRun(stored, slot.run), SetPhase(FailRun(stored, slot.run), slot, Finished));
  }

  lemma FinishMoves(e: Execution)
    ensures MovesOn(e, e.(phase := Finished))
  {
  }

  lemma RefusedMoves(e: Execution)
    requires e.phase == Waiting
    ensures MovesOn(e, e.(phase := Refused))
  {
  }

  lemma AbortForward(s: State, run: RunId, reason: Reason)
    requires WaitersKnown(s)
    ensures Forward(s, Abort(s, run, reason))
  {
    hide MovesOn;
    MovesSelf();
    var t := Abort(s, run, reason);
    assert t.executions.Keys == s.executions.Keys;
    forall slot | slot in s.executions ensures MovesOn(s.executions[slot], t.executions[slot]) {
      if slot in s.waiters {
        assert InPhase(s, slot, Waiting);
        RefusedMoves(s.executions[slot]);
      }
    }
  }

  lemma AbortRegisteredForward(s: State, run: RunId, reason: Reason)
    requires WaitersKnown(s)
    ensures Forward(s, AbortRegistered(s, run, reason))
  {
    hide Forward, Abort;
    AbortForward(s, run, reason);
    SameForward(s, s);
  }

  lemma CloseRowsForward(s: State, run: RunId)
    ensures Forward(s, CloseRows(s, run))
  {
    hide MovesOn;
    MovesSelf();
    var t := CloseRows(s, run);
    assert t.calls.Keys == s.calls.Keys && t.approvals.Keys == s.approvals.Keys;
  }

  lemma CancelForward(s: State, run: RunId)
    requires WaitersKnown(s)
    ensures Forward(s, Cancel(s, run))
  {
    hide Forward, AbortRegistered, CloseRows, RunOver;
    var stopped := AbortRegistered(s, run, Requested);
    AbortRegisteredForward(s, run, Requested);
    CloseRowsForward(stopped, run);
    SameForward(CloseRows(stopped, run), SetRun(CloseRows(stopped, run), run, Stopped));
    ForwardTwice(s, stopped, CloseRows(stopped, run));
    ForwardTwice(s, CloseRows(stopped, run), SetRun(CloseRows(stopped, run), run, Stopped));
  }

  lemma VerdictWaiters(s: State, id: Slot, verdict: Verdict)
    requires WaitersKnown(s) && id in s.approvals
    ensures WaitersKnown(SetVerdict(s, id, verdict))
  {
  }

  /** Expiry: the record is closed, the run aborted and the call perhaps canceled. */
  lemma ExpireForward(s: State, id: Slot, run: RunId)
    requires WaitersKnown(s) && id in s.approvals
    ensures Forward(s, AbortRegistered(SetVerdict(s, id, Expired), run, ApprovalExpired))
    ensures Forward(s, Abort(SetVerdict(s, id, Expired), run, ApprovalExpired))
  {
    hide Forward, AbortRegistered, Abort, SetVerdict, WaitersKnown;
    VerdictWaiters(s, id, Expired);
    VerdictForward(s, id, Expired);
    AbortRegisteredForward(SetVerdict(s, id, Expired), run, ApprovalExpired);
    AbortForward(SetVerdict(s, id, Expired), run, ApprovalExpired);
    ForwardTwice(s, SetVerdict(s, id, Expired), AbortRegistered(SetVerdict(s, id, Expired), run, ApprovalExpired));
    ForwardTwice(s, SetVerdict(s, id, Expired), Abort(SetVerdict(s, id, Expired), run, ApprovalExpired));
  }

  lemma ClosedForward(s: State, t: State, u: State)
    requires Forward(s, t) && u.executions == t.executions && u.approvals == t.approvals
    requires u.calls == t.calls ||
             exists slot, state :: slot in t.calls && u.calls == t.calls[slot := t.calls[slot].(state := state)]
    ensures Forward(s, u)
  {
    CallsForward(t, u);
    ForwardTwice(s, t, u);
  }

  lemma DecidedForward(s: State, id: Slot)
    requires WaitersKnown(s) && id in s.approvals && s.approvals[id].callId in s.calls
    ensures Forward(s, ExpireDecided(s, id))
  {
    hide Forward, AbortRegistered, SetVerdict;
    var callId := s.approvals[id].callId;
    var run := s.calls[callId].runId;
    ExpireForward(s, id, run);
    QuietVerdict(s, id, run);
    var aborted := AbortRegistered(SetVerdict(s, id, Expired), run, ApprovalExpired);
    assert aborted.calls == s.calls;
    ClosedForward(s, aborted, ExpireDecided(s, id));
  }

  lemma QuietVerdict(s: State, id: Slot, run: RunId)
    requires id in s.approvals
    ensures AbortRegistered(SetVerdict(s, id, Expired), run, ApprovalExpired).calls == s.calls
  {
    QuietAbort(SetVerdict(s, id, Expired), run, ApprovalExpired);
  }

  lemma SweepForward(s: State, id: Slot)
    requires WaitersKnown(s)
    ensures Forward(s, Sweep(s, id))
  {
    hide Forward, AbortRegistered, SetVerdict, CallOver, RunOver;
    SameForward(s, s);
    if id in s.approvals && s.approvals[id].callId in s.calls {
      var run := s.calls[s.approvals[id].callId].runId;
      ExpireForward(s, id, run);
      QuietVerdict(s, id, run);
      if s.approvals[id].verdict == Pending && s.approvals[id].expiresAt <= s.now {
        ClosedForward(s, AbortRegistered(SetVerdict(s, id, Expired), run, ApprovalExpired), Sweep(s, id));
      }
    }
  }

  lemma ReleaseForward(s: State, id: Slot)
    requires WaitersKnown(s) && id in s.approvals && s.approvals[id].callId in s.calls
    requires s.approvals[id].callId in s.waiters
    ensures Forward(s, Release(s, id))
  {
    var callId := s.approvals[id].callId;
    assert InPhase(s, callId, Waiting);
    var t := Release(s, id);
    assert t.executions.Keys == s.executions.Keys;
    forall slot | slot in s.executions ensures MovesOn(s.executions[slot], t.executions[slot]) {
      assert slot == callId ==> s.executions[slot].phase == Waiting;
    }
  }

  lemma DecideForward(s: State, id: Slot, approve: bool, argsHash: Option<Fingerprint>, generation: nat)
    requires WaitersKnown(s)
    ensures Forward(s, Decide(s, id, approve, argsHash, generation))
  {
    hide Forward, ExpireDecided, Cancel, Release, WaitersKnown;
    SameForward(s, s);
    if id in s.approvals && s.approvals[id].callId in s.calls {
      DecidedForward(s, id);
      CancelForward(s, s.calls[s.approvals[id].callId].runId);
      if s.approvals[id].callId in s.waiters {
        ReleaseForward(s, id);
      }
    }
  }

  lemma ConcludeForward(s: State, slot: Slot, exitedWell: bool, threw: bool)
    ensures Forward(s, Conclude(s, slot, exitedWell, threw))
  {
    hide Forward, Fail, SetPhase, MovesOn;
    SameForward(s, s);
    if InPhase(s, slot, Started) && slot in s.calls {
      FailForward(s, slot);
      var stored := s.(calls := s.calls[slot := s.calls[slot].(state := if exitedWell then Succeeded else Failed)]);
      CallsForward(s, stored);
      FinishMoves(stored.executions[slot]);
      PhaseForward(stored, slot, Finished);
      ForwardTwice(s, stored, SetPhase(stored, slot, Finished));
    }
  }

  lemma EndForward(s: State, run: RunId, well: bool)
    ensures Forward(s, EndRun(s, run, well))
  {
    hide Forward, Idle, RunOver, EndsCanceled;
    SameForward(s, EndRun(s, run, well));
  }

  // ----- steps that add to the stored rows -----

  lemma BeginUntouched(s: State, run: RunId)
    requires Counted(s) && Untouched(s)
    ensures Untouched(Begin(s, run))
  {
    hide FailRun;
    FailRunExecutions(s, run);
    if run in s.steps {
      FailRunExecutions(s.(steps := s.steps[run := s.steps[run] + 1]), run);
    }
    var t := Begin(s, run);
    forall slot ensures OpenCall(t, slot) {
      assert OpenCall(s, slot);
    }
    forall id ensures OwnApproval(t, id) {
      assert OwnApproval(s, id);
    }
  }

  lemma ProposeUntouched(s: State, slot: Slot, command: string, target: Terminal, generation: nat, ok: bool)
    requires Untouched(s)
    ensures Untouched(Propose(s, slot, command, target, generation, ok))
  {
    hide Fail;
    if InPhase(s, slot, Preparing) {
      if !ok {
        hide Untouched, Forward;
        FailForward(s, slot);
        ForwardUntouched(s, Fail(s, slot));
      } else {
        var t := Propose(s, slot, command, target, generation, ok);
        forall other ensures OpenCall(t, other) {
          assert OpenCall(s, other);
        }
        forall id ensures OwnApproval(t, id) {
          assert OwnApproval(s, id);
        }
      }
    }
  }

  lemma BoundUntouched(s: State, slot: Slot, call: Call, execution: Execution)
    requires Untouched(s) && InPhase(s, slot, Reviewing) && slot in s.calls
    requires call.source == s.calls[slot].source && execution.phase == Reviewing
    ensures Untouched(s.(calls := s.calls[slot := call], executions := s.executions[slot := execution]))
  {
    var t := s.(calls := s.calls[slot := call], executions := s.executions[slot := execution]);
    forall other ensures OpenCall(t, other) {
      assert OpenCall(s, other);
    }
    forall id ensures OwnApproval(t, id) {
      assert OwnApproval(s, id);
    }
  }

  lemma AskUntouched(s: State, slot: Slot)
    requires Untouched(s) && InPhase(s, slot, Reviewing) && slot in s.calls
    ensures Untouched(AskHuman(s, slot))
  {
    var t := AskHuman(s, slot);
    forall other ensures OpenCall(t, other) {
      assert OpenCall(s, other);
    }
    forall id ensures OwnApproval(t, id) {
      assert OwnApproval(s, id);
    }
  }

  lemma LaunchUntouched(s: State, slot: Slot, generation: nat)
    requires Untouched(s) && slot in s.executions && slot in s.calls
    requires s.executions[slot].phase in {Reviewing, Released}
    ensures Untouched(Launch(s, slot, generation))
  {
    hide Fail, StillBound;
    if slot.run in s.aborted || !StillBound(s, slot, generation) {
      hide Untouched, Forward;
      FailForward(s, slot);
      ForwardUntouched(s, Fail(s, slot));
    } else {
      var t := Launch(s, slot, generation);
      forall other ensures OpenCall(t, other) {
        assert OpenCall(s, other);
      }
      forall id ensures OwnApproval(t, id) {
        assert OwnApproval(s, id);
      }
    }
  }

  lemma JudgeUntouched(s: State, slot: Slot, decision: Decision, risk: nat, generation: nat, ok: bool)
    requires Untouched(s)
    ensures Untouched(Judge(s, slot, decision, risk, generation, ok))
  {
    hide Untouched, Forward, Fail, AskHuman, Launch;
    if InPhase(s, slot, Reviewing) && slot in s.calls {
      FailForward(s, slot);
      ForwardUntouched(s, Fail(s, slot));
      var expiresAt := Expiry(s.now, decision);
      var call := Bind(s.calls[slot], Review(decision, generation, expiresAt), risk, slot.step);
      var bound := s.(
        calls := s.calls[slot := call],
        executions := s.executions[slot := Execution(Reviewing, decision, expiresAt)]);
      BoundUntouched(s, slot, call, Execution(Reviewing, decision, expiresAt));
      FailForward(bound, slot);
      ForwardUntouched(bound, Fail(bound, slot));
      AskUntouched(bound, slot);
      LaunchUntouched(bound, slot, generation);
    }
  }

  lemma ResumeUntouched(s: State, slot: Slot, generation: nat)
    requires Untouched(s)
    ensures Untouched(Resume(s, slot, generation))
  {
    hide Untouched, Forward, Fail, Launch;
    if slot in s.executions {
      FailForward(s, slot);
      ForwardUntouched(s, Fail(s, slot));
      if InPhase(s, slot, Released) && slot in s.calls {
        LaunchUntouched(s, slot, generation);
      }
    }
  }

  lemma NextUntouched(s: State, step: Step, generation: nat)
    requires Inv(s, generation) && Untouched(s) && !step.AlterCall? && !step.AlterApproval?
    ensures Untouched(Next(s, step, generation))
  {
    var t := Next(s, step, generation);
    assert Counted(s) && WaitersKnown(s);
    hide Inv, Counted, WaitersKnown, Untouched, Forward, Begin, Propose, Judge, Resume, Conclude, Decide, Sweep,
      ExpiryTimer, Cancel, AbortRegistered, EndRun, Admit, Abort, SetVerdict;
    match step {
      case Tick(_) => SameForward(s, t); ForwardUntouched(s, t);
      case AdmitRun(run, terminal) => AdmitForward(s, run, terminal); ForwardUntouched(s, t);
      case BeginCommand(run) => BeginUntouched(s, run);
      case ProposeCommand(slot, command, target, ok) => ProposeUntouched(s, slot, command, target, generation, ok);
      case JudgeCommand(slot, decision, risk, ok) => JudgeUntouched(s, slot, decision, risk, generation, ok);
      case ResumeCommand(slot) => ResumeUntouched(s, slot, generation);
      case ConcludeCommand(slot, exitedWell, threw) =>
        ConcludeForward(s, slot, exitedWell, threw); ForwardUntouched(s, t);
      case DecideApproval(id, approve, argsHash) =>
        DecideForward(s, id, approve, argsHash, generation); ForwardUntouched(s, t);
      case SweepApproval(id) => SweepForward(s, id); ForwardUntouched(s, t);
      case FireExpiry(slot) => TimerForward(s, slot); ForwardUntouched(s, t);
      case CancelRun(run) => CancelForward(s, run); ForwardUntouched(s, t);
      case AbortRun(run, reason) => AbortRegisteredForward(s, run, reason); ForwardUntouched(s, t);
      case FinishRun(run, well) => EndForward(s, run, well); ForwardUntouched(s, t);
    }
  }

  lemma AdmitForward(s: State, run: RunId, terminal: Terminal)
    ensures Forward(s, Admit(s, run, terminal))
  {
    hide Forward;
    SameForward(s, Admit(s, run, terminal));
  }

  lemma TimerForward(s: State, slot: Slot)
    requires WaitersKnown(s)
    ensures Forward(s, ExpiryTimer(s, slot))
  {
    hide Forward, Abort, SetVerdict, WaitersKnown;
    SameForward(s, s);
    if slot in s.approvals {
      ExpireForward(s, slot, slot.run);
    }
  }

  lemma {:induction false} ReachableUntouched(trace: seq<Step>, generation: nat)
    requires Undisturbing(trace)
    ensures Untouched(After(trace, generation))
    decreases |trace|
  {
    hide Next, Untouched;
    if trace == [] {
      InitialUntouched();
    } else {
      var init := trace[..|trace| - 1];
      ReachableUntouched(init, generation);
      Reachable(init, generation);
      NextUntouched(After(init, generation), trace[|trace| - 1], generation);
    }
  }

  lemma InitialUntouched()
    ensures Untouched(Initial())
  {
  }

  // ----- what was asked for starts -----

  /** A command that the review lets pass starts at once, unless its run was aborted or its call was changed. */
  lemma AutoApprovedStarts(s: State, slot: Slot, risk: nat, generation: nat)
    requires InPhase(s, slot, Reviewing) && slot in s.calls
    ensures var t := Judge(s, slot, AutoApprove, risk, generation, true);
            if slot.run !in s.aborted && s.calls[slot].state == Proposed && s.calls[slot].source.None?
            then
              |t.started| == |s.started| + 1 && t.started[..|s.started|] == s.started
              && t.started[|s.started|].slot == slot
              && t.started[|s.started|].call.fields.command == s.calls[slot].fields.command
            else t.started == s.started
  {
    hide FailRun;
    FailStarts(s, slot);
    var expiresAt := Expiry(s.now, AutoApprove);
    var call := Bind(s.calls[slot], Review(AutoApprove, generation, expiresAt), risk, slot.step);
    FailStarts(
      s.(calls := s.calls[slot := call],
         executions := s.executions[slot := Execution(Reviewing, AutoApprove, expiresAt)]),
      slot);
    hide Fail;
  }

  lemma FailStarts(s: State, slot: Slot)
    requires slot in s.executions
    ensures Fail(s, slot).started == s.started
  {
    QuietFail(s, slot);
  }

  // ----- an approval is not lost while other things happen -----

  /** Command id has been approved: its code may go on, with the call as the human saw it. */
  predicate Pledged(s: State, id: Slot, call: Call, expiresAt: nat) {
    && id in s.executions && s.executions[id] == Execution(Released, AskUser, expiresAt)
    && id in s.calls && s.calls[id] == call
    && id in s.approvals && s.approvals[id].verdict != Pending
  }

  /** Nothing that concerns command id is different, unless its run was aborted. */
  predicate Spared(s: State, t: State, id: Slot) {
    && s.aborted.Keys <= t.aborted.Keys
    && (id in s.executions && id in s.calls && id in s.approvals && id.run !in t.aborted ==>
          && id in t.executions && t.executions[id] == s.executions[id]
          && id in t.calls && t.calls[id] == s.calls[id]
          && id in t.approvals && (s.approvals[id].verdict != Pending ==> t.approvals[id].verdict != Pending))
  }

  lemma SparedTwice(s: State, t: State, u: State, id: Slot)
    requires Spared(s, t, id) && Spared(t, u, id)
    ensures Spared(s, u, id)
  {
  }

  lemma PledgeSpared(s: State, t: State, id: Slot, call: Call, expiresAt: nat)
    requires Pledged(s, id, call, expiresAt) && Spared(s, t, id) && id.run !in t.aborted
    ensures Pledged(t, id, call, expiresAt)
  {
  }

  lemma FailSpares(s: State, slot: Slot, id: Slot)
    requires slot in s.executions && slot != id
    ensures Spared(s, Fail(s, slot), id)
  {
  }

  lemma AbortSpares(s: State, run: RunId, reason: Reason, id: Slot)
    ensures Spared(s, Abort(s, run, reason), id) && Spared(s, AbortRegistered(s, run, reason), id)
  {
  }

  lemma VerdictSpares(s: State, other: Slot, verdict: Verdict, id: Slot)
    requires other in s.approvals && verdict != Pending
    ensures Spared(s, SetVerdict(s, other, verdict), id)
  {
  }

  /** The run of a command that is under way is registered, or aborted already. */
  predicate Underway(s: State, id: Slot) {
    id.run in s.registered || id.run in s.aborted
  }

  lemma CancelSpares(s: State, run: RunId, id: Slot)
    requires Underway(s, id) && (id in s.calls ==> s.calls[id].runId == id.run)
    ensures Spared(s, Cancel(s, run), id)
  {
    hide RunOver;
    var stopped := AbortRegistered(s, run, Requested);
    AbortSpares(s, run, Requested, id);
    if run == id.run {
      assert id.run in stopped.aborted;
    }
  }

  lemma ReleasedUnderway(s: State, id: Slot, generation: nat)
    requires Inv(s, generation) && InPhase(s, id, Released)
    ensures Underway(s, id) && (id in s.calls ==> s.calls[id].runId == id.run)
  {
    assert Live(s.executions[id]);
  }

  /** A decision about another command. */
  lemma DecideSpares(s: State, other: Slot, approve: bool, argsHash: Option<Fingerprint>, id: Slot, generation: nat)
    requires Untouched(s) && Inv(s, generation) && InPhase(s, id, Released) && id in s.approvals
    requires s.approvals[id].verdict != Pending
    ensures Spared(s, Decide(s, other, approve, argsHash, generation), id)
  {
    hide Inv, Untouched, Cancel, ExpireDecided, Release, Matches, Spared, Underway, InPhase;
    ReleasedUnderway(s, id, generation);
    UntouchedApproval(s, other);
    UnknownDecides(s, other, approve, argsHash, generation);
    SparedSelf(s, id);
    if other in s.approvals && other in s.calls && other != id {
      var run := s.calls[other].runId;
      CancelSpares(s, run, id);
      ExpireSpares(s, other, run, id);
      ReleaseSpares(s, other, id);
    }
  }

  lemma UnknownDecides(s: State, other: Slot, approve: bool, argsHash: Option<Fingerprint>, generation: nat)
    ensures other in s.approvals && s.approvals[other].callId !in s.calls ==>
              Decide(s, other, approve, argsHash, generation) == s
  {
  }

  lemma ExpireSpares(s: State, other: Slot, run: RunId, id: Slot)
    requires other in s.approvals && other in s.calls && s.approvals[other].callId == other && other != id
    requires run == s.calls[other].runId
    ensures Spared(s, ExpireDecided(s, other), id)
    ensures Spared(s, AbortRegistered(SetVerdict(s, other, Expired), run, ApprovalExpired), id)
    ensures AbortRegistered(SetVerdict(s, other, Expired), run, ApprovalExpired).calls == s.calls
  {
    hide Spared;
    var verdict := SetVerdict(s, other, Expired);
    var aborted := AbortRegistered(verdict, run, ApprovalExpired);
    VerdictSpares(s, other, Expired, id);
    AbortSpares(verdict, run, ApprovalExpired, id);
    SparedTwice(s, verdict, aborted, id);
    QuietVerdict(s, other, run);
    CallSpares(aborted, ExpireDecided(s, other), other, id);
    SparedTwice(s, aborted, ExpireDecided(s, other), id);
  }

  /** Another call and the states of runs have changed. */
  lemma CallSpares(s: State, t: State, other: Slot, id: Slot)
    requires t.executions == s.executions && t.approvals == s.approvals && t.aborted == s.aborted
    requires other != id && t.calls - {other} == s.calls - {other}
    ensures Spared(s, t, id)
  {
    if id in s.calls {
      assert id in s.calls - {other} && (s.calls - {other})[id] == s.calls[id];
      assert id in t.calls - {other} && (t.calls - {other})[id] == t.calls[id];
    }
  }

  lemma ReleaseSpares(s: State, other: Slot, id: Slot)
    requires other in s.approvals && other in s.calls && s.approvals[other].callId == other && other != id
    ensures Spared(s, Release(s, other), id)
  {
  }

  lemma SweepSpares(s: State, other: Slot, id: Slot)
    requires OwnApproval(s, other) && id in s.approvals && s.approvals[id].verdict != Pending
    ensures Spared(s, Sweep(s, other), id)
  {
    hide AbortRegistered, SetVerdict, CallOver, RunOver;
    if other in s.approvals && other in s.calls && s.approvals[other].verdict == Pending
       && s.approvals[other].expiresAt <= s.now {
      var run := s.calls[other].runId;
      ExpireSpares(s, other, run, id);
      var aborted := AbortRegistered(SetVerdict(s, other, Expired), run, ApprovalExpired);
      CallSpares(aborted, Sweep(s, other), other, id);
    }
  }

  lemma TimerSpares(s: State, slot: Slot, id: Slot)
    ensures Spared(s, ExpiryTimer(s, slot), id)
  {
    hide Abort, SetVerdict;
    if slot in s.approvals {
      VerdictSpares(s, slot, Expired, id);
      AbortSpares(SetVerdict(s, slot, Expired), slot.run, ApprovalExpired, id);
    }
  }

  lemma BeginSpares(s: State, run: RunId, id: Slot)
    requires Counted(s)
    ensures Spared(s, Begin(s, run), id)
  {
  }

  lemma ProposeSpares(s: State, slot: Slot, command: string, target: Terminal, generation: nat, ok: bool, id: Slot)
    requires InPhase(s, id, Released)
    ensures Spared(s, Propose(s, slot, command, target, generation, ok), id)
  {
    hide Fail;
    if InPhase(s, slot, Preparing) {
      FailSpares(s, slot, id);
    }
  }

  lemma JudgeSpares(s: State, slot: Slot, decision: Decision, risk: nat, generation: nat, ok: bool, id: Slot)
    requires InPhase(s, id, Released)
    ensures Spared(s, Judge(s, slot, decision, risk, generation, ok), id)
  {
    hide Fail, Launch, Spared;
    if InPhase(s, slot, Reviewing) && slot in s.calls {
      FailSpares(s, slot, id);
      var expiresAt := Expiry(s.now, decision);
      var call := Bind(s.calls[slot], Review(decision, generation, expiresAt), risk, slot.step);
      var bound := s.(
        calls := s.calls[slot := call],
        executions := s.executions[slot := Execution(Reviewing, decision, expiresAt)]);
      BoundSpares(s, slot, call, Execution(Reviewing, decision, expiresAt), id);
      FailSpares(bound, slot, id);
      LaunchSpares(bound, slot, generation, id);
      AskSpares(bound, slot, id);
      SparedTwice(s, bound, Fail(bound, slot), id);
      SparedTwice(s, bound, AskHuman(bound, slot), id);
      SparedTwice(s, bound, Launch(bound, slot, generation), id);
    } else {
      SparedSelf(s, id);
    }
  }

  lemma SparedSelf(s: State, id: Slot)
    ensures Spared(s, s, id)
  {
  }

  lemma BoundSpares(s: State, slot: Slot, call: Call, execution: Execution, id: Slot)
    requires slot != id
    ensures Spared(s, s.(calls := s.calls[slot := call], executions := s.executions[slot := execution]), id)
  {
  }

  lemma AskSpares(s: State, slot: Slot, id: Slot)
    requires slot in s.executions && slot in s.calls && slot != id
    ensures Spared(s, AskHuman(s, slot), id)
  {
  }

  lemma LaunchSpares(s: State, slot: Slot, generation: nat, id: Slot)
    requires slot in s.executions && slot in s.calls && slot != id
    ensures Spared(s, Launch(s, slot, generation), id)
  {
    hide Fail;
    FailSpares(s, slot, id);
  }

  lemma ResumeSpares(s: State, slot: Slot, generation: nat, id: Slot)
    requires slot != id
    ensures Spared(s, Resume(s, slot, generation), id)
  {
    hide Fail, Launch, Spared;
    SparedSelf(s, id);
    if slot in s.executions {
      FailSpares(s, slot, id);
      if slot in s.calls {
        LaunchSpares(s, slot, generation, id);
      }
    }
  }

  lemma ConcludeSpares(s: State, slot: Slot, exitedWell: bool, threw: bool, id: Slot)
    requires InPhase(s, id, Released)
    ensures Spared(s, Conclude(s, slot, exitedWell, threw), id)
  {
    hide Fail;
    if InPhase(s, slot, Started) && slot in s.calls {
      FailSpares(s, slot, id);
    }
  }

  /** The steps of commands. */
  predicate OfCommand(step: Step) {
    step.ProposeCommand? || step.JudgeCommand? || step.ResumeCommand? || step.ConcludeCommand?
  }

  lemma CommandSpares(s: State, step: Step, id: Slot, generation: nat)
    requires InPhase(s, id, Released) && OfCommand(step) && step != ResumeCommand(id)
    ensures Spared(s, Next(s, step, generation), id)
  {
    hide Propose, Judge, Resume, Conclude, Spared, InPhase;
    match step {
      case ProposeCommand(slot, command, target, ok) => ProposeSpares(s, slot, command, target, generation, ok, id);
      case JudgeCommand(slot, decision, risk, ok) => JudgeSpares(s, slot, decision, risk, generation, ok, id);
      case ResumeCommand(slot) => ResumeSpares(s, slot, generation, id);
      case ConcludeCommand(slot, exitedWell, threw) => ConcludeSpares(s, slot, exitedWell, threw, id);
    }
  }

  /** The clock and the beginnings and ends of runs and commands. */
  predicate OfRun(step: Step) {
    step.Tick? || step.AdmitRun? || step.BeginCommand? || step.FinishRun?
  }

  lemma RunSpares(s: State, step: Step, id: Slot, generation: nat)
    requires Counted(s) && OfRun(step)
    ensures Spared(s, Next(s, step, generation), id)
  {
    hide Counted, Begin, Propose, Judge, Resume, Conclude, Decide, Sweep, ExpiryTimer, Cancel, AbortRegistered;
    hide Admit, EndRun, Spared;
    match step {
      case BeginCommand(run) => BeginSpares(s, run, id);
      case AdmitRun(run, terminal) => AdmitSpares(s, run, terminal, id);
      case FinishRun(run, well) => EndSpares(s, run, well, id);
      case Tick(elapsed) => SameSpares(s, s.(now := s.now + elapsed), id);
    }
  }

  lemma AdmitSpares(s: State, run: RunId, terminal: Terminal, id: Slot)
    ensures Spared(s, Admit(s, run, terminal), id)
  {
    SameSpares(s, Admit(s, run, terminal), id);
  }

  lemma EndSpares(s: State, run: RunId, well: bool, id: Slot)
    ensures Spared(s, EndRun(s, run, well), id)
  {
    hide Idle, RunOver, EndsCanceled;
    SameSpares(s, EndRun(s, run, well), id);
  }

  /** Whatever happens next, short of its own code going on, an approved command stays as it was approved. */
  lemma NextSpares(s: State, step: Step, id: Slot, generation: nat)
    requires Inv(s, generation) && Untouched(s) && InPhase(s, id, Released)
    requires id in s.approvals && s.approvals[id].verdict != Pending
    requires !step.AlterCall? && !step.AlterApproval? && step != ResumeCommand(id)
    ensures Spared(s, Next(s, step, generation), id)
  {
    hide Inv, Untouched, InPhase, Begin, Propose, Judge, Resume, Conclude, Decide, Sweep, ExpiryTimer, Cancel;
    hide AbortRegistered, Spared, Admit, EndRun, Counted, Underway;
    if OfCommand(step) {
      CommandSpares(s, step, id, generation);
    } else if OfRun(step) {
      InvCounted(s, generation);
      RunSpares(s, step, id, generation);
    } else {
      ReleasedUnderway(s, id, generation);
      match step {
        case DecideApproval(other, approve, argsHash) => DecideSpares(s, other, approve, argsHash, id, generation);
        case SweepApproval(other) => UntouchedApproval(s, other); SweepSpares(s, other, id);
        case FireExpiry(slot) => TimerSpares(s, slot, id);
        case CancelRun(run) => CancelSpares(s, run, id);
        case AbortRun(run, reason) => AbortSpares(s, run, reason, id);
      }
    }
  }

  lemma SameSpares(s: State, t: State, id: Slot)
    requires t.executions == s.executions && t.calls == s.calls && t.approvals == s.approvals && t.aborted == s.aborted
    ensures Spared(s, t, id)
  {
  }

  lemma InvCounted(s: State, generation: nat)
    requires Inv(s, generation)
    ensures Counted(s)
  {
  }

  lemma UntouchedApproval(s: State, id: Slot)
    requires Untouched(s)
    ensures OwnApproval(s, id)
  {
  }

  lemma LastStep(trace: seq<Step>, between: seq<Step>, generation: nat)
    requires between != [] && Undisturbing(trace + between)
    ensures var n := |between| - 1;
            && After(trace + between, generation) ==
               Next(After(trace + between[..n], generation), between[n], generation)
            && Undisturbing(trace + between[..n]) && !between[n].AlterCall? && !between[n].AlterApproval?
  {
    hide Next;
    var n := |between| - 1;
    assert (trace + between)[..|trace + between| - 1] == trace + between[..n];
    assert (trace + between)[|trace| + n] == between[n];
    assert trace + between[..n] + [between[n]] == trace + between;
    UndisturbedBefore(trace + between[..n], [between[n]]);
  }

  /** The pledge holds after whatever happens in between, unless the run is aborted. */
  lemma {:induction false} PledgeLasts(
    trace: seq<Step>, between: seq<Step>, id: Slot, call: Call, expiresAt: nat, generation: nat)
    requires Undisturbing(trace + between) && ResumeCommand(id) !in between
    requires Pledged(After(trace, generation), id, call, expiresAt)
    requires id.run !in After(trace + between, generation).aborted
    ensures Pledged(After(trace + between, generation), id, call, expiresAt)
    decreases |between|
  {
    hide After, Next, Inv, Untouched, Spared, Pledged, Undisturbing;
    if between == [] {
      assert trace + between == trace;
    } else {
      var n := |between| - 1;
      var s, step := After(trace + between[..n], generation), between[n];
      LastStep(trace, between, generation);
      assert step in between && forall k :: 0 <= k < n ==> between[k] in between;
      Reachable(trace + between[..n], generation);
      ReachableUntouched(trace + between[..n], generation);
      StaysAborted(s, step, id.run, generation);
      PledgeLasts(trace, between[..n], id, call, expiresAt, generation);
      PledgeReleased(s, id, call, expiresAt);
      NextSpares(s, step, id, generation);
      PledgeSpared(s, Next(s, step, generation), id, call, expiresAt);
    }
  }

  lemma PledgeReleased(s: State, id: Slot, call: Call, expiresAt: nat)
    requires Pledged(s, id, call, expiresAt)
    ensures InPhase(s, id, Released) && id in s.approvals && s.approvals[id].verdict != Pending
  {
  }

  lemma AbortStays(s: State, run: RunId, reason: Reason)
    ensures s.aborted.Keys <= Abort(s, run, reason).aborted.Keys
    ensures s.aborted.Keys <= AbortRegistered(s, run, reason).aborted.Keys
  {
  }

  lemma FailStays(s: State, slot: Slot)
    requires slot in s.executions
    ensures Fail(s, slot).aborted == s.aborted
  {
  }

  lemma VerdictStays(s: State, id: Slot, verdict: Verdict)
    requires id in s.approvals
    ensures SetVerdict(s, id, verdict).aborted == s.aborted
  {
  }

  lemma JudgeStays(s: State, slot: Slot, decision: Decision, risk: nat, generation: nat, ok: bool)
    ensures Judge(s, slot, decision, risk, generation, ok).aborted == s.aborted
  {
    hide Fail, StillBound;
    if InPhase(s, slot, Reviewing) && slot in s.calls {
      FailStays(s, slot);
      var expiresAt := Expiry(s.now, decision);
      var call := Bind(s.calls[slot], Review(decision, generation, expiresAt), risk, slot.step);
      var bound := s.(
        calls := s.calls[slot := call],
        executions := s.executions[slot := Execution(Reviewing, decision, expiresAt)]);
      FailStays(bound, slot);
    }
  }

  lemma DecideStays(s: State, id: Slot, approve: bool, argsHash: Option<Fingerprint>, generation: nat)
    ensures s.aborted.Keys <= Decide(s, id, approve, argsHash, generation).aborted.Keys
  {
    hide AbortRegistered, SetVerdict, CloseRows;
    if id in s.approvals && s.approvals[id].callId in s.calls {
      var run := s.calls[s.approvals[id].callId].runId;
      VerdictStays(s, id, Expired);
      AbortStays(SetVerdict(s, id, Expired), run, ApprovalExpired);
      CancelStays(s, run);
      ReleaseStays(s, id);
      hide Cancel, Release;
    }
  }

  lemma ReleaseStays(s: State, id: Slot)
    requires id in s.approvals && s.approvals[id].callId in s.calls
    ensures Release(s, id).aborted == s.aborted
  {
  }

  lemma CancelStays(s: State, run: RunId)
    ensures s.aborted.Keys <= Cancel(s, run).aborted.Keys
  {
    AbortStays(s, run, Requested);
    hide AbortRegistered;
  }

  lemma SweepStays(s: State, id: Slot)
    ensures s.aborted.Keys <= Sweep(s, id).aborted.Keys
    ensures s.aborted.Keys <= ExpiryTimer(s, id).aborted.Keys
  {
    hide Abort, AbortRegistered, SetVerdict;
    if id in s.approvals {
      VerdictStays(s, id, Expired);
      AbortStays(SetVerdict(s, id, Expired), id.run, ApprovalExpired);
      if s.approvals[id].callId in s.calls {
        AbortStays(SetVerdict(s, id, Expired), s.calls[s.approvals[id].callId].runId, ApprovalExpired);
      }
    }
  }

  lemma ResumeStays(s: State, slot: Slot, generation: nat)
    ensures Resume(s, slot, generation).aborted == s.aborted
  {
    hide Fail, StillBound;
    if slot in s.executions {
      FailStays(s, slot);
    }
  }

  lemma CommandStays(s: State, slot: Slot)
    requires slot in s.executions
    ensures forall exitedWell, threw :: Conclude(s, slot, exitedWell, threw).aborted == s.aborted
    ensures forall command, target, generation, ok ::
              Propose(s, slot, command, target, generation, ok).aborted == s.aborted
  {
    hide Fail;
    FailStays(s, slot);
  }

  /** An aborted run stays aborted. */
  lemma StaysAborted(s: State, step: Step, run: RunId, generation: nat)
    ensures run in s.aborted ==> run in Next(s, step, generation).aborted
  {
    hide Propose, Judge, Resume, Conclude, Decide, Sweep, ExpiryTimer, Cancel, Abort, AbortRegistered, Fail;
    match step {
      case ProposeCommand(slot, command, target, ok) =>
        if slot in s.executions { CommandStays(s, slot); } else { NotBegun(s, slot); }
      case JudgeCommand(slot, decision, risk, ok) => JudgeStays(s, slot, decision, risk, generation, ok);
      case ResumeCommand(slot) => ResumeStays(s, slot, generation);
      case ConcludeCommand(slot, exitedWell, threw) =>
        if slot in s.executions { CommandStays(s, slot); } else { NotBegun(s, slot); }
      case DecideApproval(id, approve, argsHash) => DecideStays(s, id, approve, argsHash, generation);
      case SweepApproval(id) => SweepStays(s, id);
      case FireExpiry(slot) => SweepStays(s, slot);
      case CancelRun(other) => CancelStays(s, other);
      case AbortRun(other, reason) => AbortStays(s, other, reason);
      case _ =>
    }
  }

  lemma NotBegun(s: State, slot: Slot)
    requires slot !in s.executions
    ensures forall exitedWell, threw :: Conclude(s, slot, exitedWell, threw) == s
    ensures forall command, target, generation, ok :: Propose(s, slot, command, target, generation, ok) == s
  {
  }

  lemma GrantedReleases(s: State, id: Slot, argsHash: Option<Fingerprint>, generation: nat)
    requires Decide(s, id, true, argsHash, generation).granted != s.granted
    ensures id in s.approvals && Matches(s, s.approvals[id]) && s.approvals[id].callId in s.waiters
    ensures Decide(s, id, true, argsHash, generation) == Release(s, id)
    ensures var approval, call := s.approvals[id], s.calls[s.approvals[id].callId];
            && s.now < approval.expiresAt && call.fields.review.generation == generation
            && CommandHash(call, approval.expiresAt) == call.argsHash
  {
    hide ExpireDecided, Cancel, Release;
    if id in s.approvals && s.approvals[id].callId in s.calls {
      QuietExpireDecided(s, id);
    }
  }

  /**
   A command that a human approves starts as it was shown, when its code goes on. In between anything may
   happen that does not abort its run, alter the rows or use up the time.
   */
  lemma ApprovedStarts(
    trace: seq<Step>, id: Slot, argsHash: Option<Fingerprint>, between: seq<Step>, generation: nat)
    requires var decided := trace + [DecideApproval(id, true, argsHash)];
             && Undisturbing(decided + between) && ResumeCommand(id) !in between
             && After(decided, generation).granted != After(trace, generation).granted
             && id in After(trace, generation).executions
             && id.run !in After(decided + between, generation).aborted
             && After(decided + between, generation).now < After(trace, generation).executions[id].expiresAt
    ensures var s := After(trace, generation);
            var t := After(trace + [DecideApproval(id, true, argsHash)] + between, generation);
            && id in s.calls
            && Resume(t, id, generation).started ==
               t.started + [Start(id, s.calls[id], AskUser, s.executions[id].expiresAt, t.now)]
  {
    hide Next, Inv, Untouched, Decide, Resume, Pledged, Undisturbing;
    var step := DecideApproval(id, true, argsHash);
    var s, decided := After(trace, generation), trace + [step];
    DecidedNext(trace, id, argsHash, generation);
    assert decided + between == trace + ([step] + between);
    UndisturbedBefore(trace, [step] + between);
    hide After;
    ReachableUntouched(trace, generation);
    Reachable(trace, generation);
    GrantedPledges(s, id, argsHash, generation);
    var call, expiresAt := s.calls[id], s.executions[id].expiresAt;
    PledgeLasts(decided, between, id, call, expiresAt, generation);
    PledgedStarts(After(decided + between, generation), id, call, expiresAt, generation);
  }

  lemma DecidedNext(trace: seq<Step>, id: Slot, argsHash: Option<Fingerprint>, generation: nat)
    ensures After(trace + [DecideApproval(id, true, argsHash)], generation) ==
            Decide(After(trace, generation), id, true, argsHash, generation)
  {
    assert (trace + [DecideApproval(id, true, argsHash)])[..|trace|] == trace;
  }

  lemma UndisturbedBefore(trace: seq<Step>, rest: seq<Step>)
    requires Undisturbing(trace + rest)
    ensures Undisturbing(trace)
  {
    forall k | 0 <= k < |trace| ensures !trace[k].AlterCall? && !trace[k].AlterApproval? {
      assert (trace + rest)[k] == trace[k];
    }
  }

  /** An approval that is recorded pledges the call as it is stored. */
  lemma GrantedPledges(s: State, id: Slot, argsHash: Option<Fingerprint>, generation: nat)
    requires Inv(s, generation) && Untouched(s)
    requires Decide(s, id, true, argsHash, generation).granted != s.granted
    ensures id in s.calls && id in s.executions
    ensures Pledged(Decide(s, id, true, argsHash, generation), id, s.calls[id], s.executions[id].expiresAt)
    ensures Startable(s.calls[id], s.executions[id].expiresAt, generation)
  {
    GrantedReleases(s, id, argsHash, generation);
    assert OwnApproval(s, id) && OpenCall(s, id);
    assert InPhase(s, id, Waiting);
    hide Decide, Inv, Untouched;
  }

  /** The final check finds nothing wrong with this call, as long as there is time. */
  predicate Startable(call: Call, expiresAt: nat, generation: nat) {
    && call.argsHash == CommandHash(call, expiresAt) && call.source.None? && call.state == AwaitingApproval
    && call.fields.review.generation == generation
  }

  lemma PledgedStarts(s: State, id: Slot, call: Call, expiresAt: nat, generation: nat)
    requires Pledged(s, id, call, expiresAt) && Startable(call, expiresAt, generation)
    requires id.run !in s.aborted && s.now < expiresAt
    ensures Resume(s, id, generation).started == s.started + [Start(id, call, AskUser, expiresAt, s.now)]
  {
    hide Fail;
    assert StillBound(s, id, generation);
  }
}
