/** The service that carries out reviewed commands, one method for each step between two awaits. */
module AiService {
  import opened Common
  import opened ReviewedCommands

  class Service {
    const commandGeneration: nat
    var now: nat
    var runs: map<RunId, RunState>
    var controllers: set<RunId>
    var aborted: map<RunId, Reason>
    var steps: map<RunId, nat>
    var workTargets: map<Terminal, RunId>
    var calls: map<Slot, Call>
    var approvals: map<Slot, Approval>
    var approvalWaiters: set<Slot>
    var executions: map<Slot, Execution>
    ghost var started: seq<Start>
    ghost var granted: seq<Grant>
    ghost var canceled: set<RunId>
    ghost var rehashed: set<Slot>
    /** The steps taken so far. */
    ghost var trace: seq<Step>

    ghost function Now(): State
      reads this
    {
      State(
        now, runs, controllers, aborted, steps, workTargets, calls, approvals, approvalWaiters, executions,
        started, granted, canceled, rehashed)
    }

    /** The object is in the state its steps lead to. */
    ghost predicate Valid()
      reads this
    {
      Now() == After(trace, commandGeneration)
    }

    constructor (commandGeneration: nat)
      ensures Valid() && trace == [] && this.commandGeneration == commandGeneration
    {
      this.commandGeneration := commandGeneration;
      now, runs, controllers, aborted, steps := 0, map[], {}, map[], map[];
      workTargets, calls, approvals, approvalWaiters, executions := map[], map[], map[], {}, map[];
      started, granted, canceled, rehashed, trace := [], [], {}, {}, [];
    }

    // ----- shared pieces -----

    method UpdateRun(run: RunId, state: RunState)
      modifies `runs, `canceled
      ensures Now() == SetRun(old(Now()), run, state)
    {
      runs := runs[run := state];
      if state == Stopped {
        canceled := canceled + {run};
      }
    }

    /** Aborting a controller rejects every promise that listens to it. */
    method AbortController(run: RunId, reason: Reason)
      modifies `aborted, `approvalWaiters, `executions
      ensures Now() == Abort(old(Now()), run, reason)
    {
      if run in aborted { return; }
      aborted := aborted[run := reason];
      var listeners := approvalWaiters;
      while listeners != {}
        invariant listeners <= old(approvalWaiters) && aborted == old(aborted)[run := reason]
        invariant approvalWaiters == set slot | slot in old(approvalWaiters) && (slot.run != run || slot in listeners)
        invariant executions.Keys == old(executions).Keys
        invariant forall slot :: slot in executions ==>
                    executions[slot] ==
                    if slot.run == run && slot in old(approvalWaiters) && slot !in listeners
                    then old(executions)[slot].(phase := Refused) else old(executions)[slot]
      {
        var slot :| slot in listeners;
        listeners := listeners - {slot};
        if slot.run == run {
          approvalWaiters := approvalWaiters - {slot};
          if slot in executions {
            executions := executions[slot := executions[slot].(phase := Refused)];
          }
        }
      }
      ghost var expected := Abort(old(Now()), run, reason);
      assert approvalWaiters == expected.waiters && executions == expected.executions;
    }

    method FailCommand(slot: Slot)
      requires slot in executions
      modifies `runs, `canceled, `calls, `executions
      ensures Now() == Fail(old(Now()), slot)
    {
      var run := slot.run;
      var endsCanceled := run in aborted && aborted[run] != TimeLimit;
      if slot in calls && !CallOver(calls[slot].state) {
        calls := calls[slot := calls[slot].(state := if endsCanceled then Canceled else Failed)];
      }
      if run !in runs || (runs[run] != Broken && runs[run] != Stopped) {
        UpdateRun(run, if endsCanceled then Stopped else Broken);
      }
      executions := executions[slot := executions[slot].(phase := Finished)];
    }

    /** The final check on the stored call, then the call to the tools. */
    method LaunchCommand(slot: Slot)
      requires slot in executions && slot in calls
      modifies `runs, `canceled, `calls, `executions, `started
      ensures Now() == Launch(old(Now()), slot, commandGeneration)
    {
      hide Fail, CommandHash;
      var bound, execution := calls[slot], executions[slot];
      if slot.run in aborted
        || bound.argsHash != CommandHash(bound, execution.expiresAt)
        || bound.source.Some?
        || bound.state != (if execution.decision == AutoApprove then Proposed else AwaitingApproval)
        || bound.fields.review.generation != commandGeneration
        || execution.expiresAt <= now
      {
        FailCommand(slot);
        return;
      }
      calls := calls[slot := bound.(source := Some(if execution.decision == AutoApprove then Automatic else User))];
      calls := calls[slot := calls[slot].(state := Executing)];
      UpdateRun(slot.run, Active);
      started := started + [Start(slot, bound, execution.decision, execution.expiresAt, now)];
      executions := executions[slot := execution.(phase := Started)];
      assert calls == old(calls)[slot := calls[slot]];
    }

    method WaitForApproval(slot: Slot)
      requires slot in executions && slot in calls
      modifies `runs, `canceled, `calls, `approvals, `approvalWaiters, `executions
      ensures Now() == AskHuman(old(Now()), slot)
    {
      var call := calls[slot];
      approvals := approvals[slot :=
        Approval(call.runId, slot, call.argsHash, call.fields.target, executions[slot].expiresAt, Pending)];
      calls := calls[slot := call.(state := AwaitingApproval)];
      UpdateRun(call.runId, OnHold);
      approvalWaiters := approvalWaiters + {slot};
      executions := executions[slot := executions[slot].(phase := Waiting)];
    }

    // ----- the steps of a command -----

    method StartRun(run: RunId, terminal: Terminal) returns (admitted: bool)
      modifies `runs, `controllers, `steps, `workTargets
      ensures Now() == Admit(old(Now()), run, terminal)
      ensures admitted <==> run in runs && run !in old(runs)
    {
      admitted := run !in runs && terminal !in workTargets && |workTargets| < 4;
      if admitted {
        runs := runs[run := Active];
        workTargets := workTargets[terminal := run];
        controllers := controllers + {run};
        steps := steps[run := 0];
      }
    }

    method NextStep(run: RunId)
      modifies `runs, `canceled, `steps, `executions
      ensures Now() == Begin(old(Now()), run)
    {
      if run in controllers && run in steps {
        var endsCanceled := run in aborted && aborted[run] != TimeLimit;
        var over := run in runs && (runs[run] == Broken || runs[run] == Stopped);
        if run in aborted {
          if !over { UpdateRun(run, if endsCanceled then Stopped else Broken); }
        } else {
          steps := steps[run := steps[run] + 1];
          if steps[run] > MAX_STEPS {
            if !over { UpdateRun(run, Broken); }
          } else {
            executions := executions[Slot(run, steps[run]) := Execution(Preparing, AskUser, 0)];
          }
        }
      }
    }

    method ProposeCall(slot: Slot, command: string, target: Terminal, ok: bool)
      modifies `runs, `canceled, `calls, `executions
      ensures Now() == Propose(old(Now()), slot, command, target, commandGeneration, ok)
    {
      if slot in executions && executions[slot].phase == Preparing {
        if !ok {
          FailCommand(slot);
        } else {
          var review := Review(AskUser, commandGeneration, now + AUTOMATIC_LIFETIME);
          calls := calls[slot := Call(slot.run, Fields(command, target, 1, review, slot.step), None, Proposed, None)];
          executions := executions[slot := executions[slot].(phase := Reviewing)];
        }
      }
    }

    /** First the review is stored, then the hash of the call as it is stored. */
    method BindCall(slot: Slot, review: Review, risk: nat)
      requires slot in calls
      modifies `calls
      ensures calls == old(calls)[slot := Bind(old(calls)[slot], review, risk, slot.step)]
    {
      var stored := calls[slot];
      calls := calls[slot := stored.(fields := stored.fields.(step := slot.step, risk := risk, review := review))];
      stored := calls[slot];
      calls := calls[slot := stored.(argsHash := CommandHash(stored, review.expiresAt))];
    }

    method ReviewDone(slot: Slot, decision: Decision, risk: nat, ok: bool)
      modifies `runs, `canceled, `calls, `approvals, `approvalWaiters, `executions, `started
      ensures Now() == Judge(old(Now()), slot, decision, risk, commandGeneration, ok)
    {
      hide Fail, AskHuman, Launch, Bind;
      if slot in executions && executions[slot].phase == Reviewing && slot in calls {
        if !ok || slot.run in aborted {
          FailCommand(slot);
        } else {
          var expiresAt := now + if decision == AskUser then APPROVAL_LIFETIME else AUTOMATIC_LIFETIME;
          BindCall(slot, Review(decision, commandGeneration, expiresAt), risk);
          executions := executions[slot := Execution(Reviewing, decision, expiresAt)];
          match decision {
            case Reject => FailCommand(slot);
            case AskUser => WaitForApproval(slot);
            case AutoApprove => LaunchCommand(slot);
          }
        }
      }
    }

    method PromiseSettled(slot: Slot)
      modifies `runs, `canceled, `calls, `executions, `started
      ensures Now() == Resume(old(Now()), slot, commandGeneration)
    {
      if slot in executions {
        if executions[slot].phase == Refused {
          FailCommand(slot);
        } else if executions[slot].phase == Released && slot in calls {
          LaunchCommand(slot);
        }
      }
    }

    method ToolReturned(slot: Slot, exitedWell: bool, threw: bool)
      modifies `runs, `canceled, `calls, `executions
      ensures Now() == Conclude(old(Now()), slot, exitedWell, threw)
    {
      if slot in executions && executions[slot].phase == Started && slot in calls {
        if threw || slot.run in aborted {
          FailCommand(slot);
        } else {
          calls := calls[slot := calls[slot].(state := if exitedWell then Succeeded else Failed)];
          executions := executions[slot := executions[slot].(phase := Finished)];
        }
      }
    }

    // ----- humans and timers -----

    method RejectPending(run: RunId)
      modifies `approvals
      ensures approvals == map id | id in old(approvals) ::
        if old(approvals)[id].runId == run && old(approvals)[id].verdict == Pending
        then old(approvals)[id].(verdict := Rejected) else old(approvals)[id]
    {
      var remaining := approvals.Keys;
      while remaining != {}
        invariant remaining <= old(approvals).Keys && approvals.Keys == old(approvals).Keys
        invariant forall id :: id in approvals ==>
                    approvals[id] ==
                    if id !in remaining && old(approvals)[id].runId == run && old(approvals)[id].verdict == Pending
                    then old(approvals)[id].(verdict := Rejected) else old(approvals)[id]
      {
        var id :| id in remaining;
        remaining := remaining - {id};
        if approvals[id].runId == run && approvals[id].verdict == Pending {
          approvals := approvals[id := approvals[id].(verdict := Rejected)];
        }
      }
    }

    method CancelCalls(run: RunId)
      modifies `calls
      ensures calls == map slot | slot in old(calls) ::
        if old(calls)[slot].runId == run && !CallOver(old(calls)[slot].state)
        then old(calls)[slot].(state := Canceled) else old(calls)[slot]
    {
      var remaining := calls.Keys;
      while remaining != {}
        invariant remaining <= old(calls).Keys && calls.Keys == old(calls).Keys
        invariant forall slot :: slot in calls ==>
                    calls[slot] ==
                    if slot !in remaining && old(calls)[slot].runId == run && !CallOver(old(calls)[slot].state)
                    then old(calls)[slot].(state := Canceled) else old(calls)[slot]
      {
        var slot :| slot in remaining;
        remaining := remaining - {slot};
        if calls[slot].runId == run && !CallOver(calls[slot].state) {
          calls := calls[slot := calls[slot].(state := Canceled)];
        }
      }
    }

    method Cancel(run: RunId)
      modifies `runs, `canceled, `aborted, `calls, `approvals, `approvalWaiters, `executions
      ensures Now() == ReviewedCommands.Cancel(old(Now()), run)
    {
      if run in controllers {
        AbortController(run, Requested);
      }
      if run !in runs || RunOver(runs[run]) { return; }
      RejectPending(run);
      CancelCalls(run);
      UpdateRun(run, Stopped);
    }

    method ExpireApproval(id: Slot)
      requires id in approvals && approvals[id].callId in calls
      modifies `runs, `canceled, `aborted, `calls, `approvals, `approvalWaiters, `executions
      ensures Now() == ExpireDecided(old(Now()), id)
    {
      var callId := approvals[id].callId;
      approvals := approvals[id := approvals[id].(verdict := Expired)];
      if calls[callId].runId in controllers {
        AbortController(calls[callId].runId, ApprovalExpired);
      }
      calls := calls[callId := calls[callId].(state := Canceled)];
      UpdateRun(calls[callId].runId, Stopped);
    }

    /** A human's decision; the promise of the waiting command settles when it is an approval. */
    method Decide(id: Slot, approve: bool, argsHash: Option<Fingerprint>)
      modifies `runs, `canceled, `aborted, `calls, `approvals, `approvalWaiters, `executions, `granted
      ensures Now() == ReviewedCommands.Decide(old(Now()), id, approve, argsHash, commandGeneration)
    {
      if id in approvals && approvals[id].verdict == Pending && approvals[id].argsHash == argsHash {
        var approval := approvals[id];
        if approval.callId in calls {
          var call := calls[approval.callId];
          if call.runId == approval.runId && call.fields.target == approval.target
            && call.argsHash == approval.argsHash && call.state == AwaitingApproval
            && approval.runId in runs && runs[approval.runId] == OnHold
          {
            if approval.expiresAt <= now {
              ExpireApproval(id);
            } else if CommandHash(call, approval.expiresAt) == approval.argsHash
              && call.fields.review.generation == commandGeneration && approval.callId in approvalWaiters
            {
              if approve {
                ApproveWaiter(id);
              } else {
                Cancel(call.runId);
              }
            }
          }
        }
      }
    }

    method ApproveWaiter(id: Slot)
      requires id in approvals && approvals[id].callId in calls
      modifies `approvals, `approvalWaiters, `granted, `executions
      ensures Now() == Release(old(Now()), id)
    {
      var callId := approvals[id].callId;
      granted := granted + [Grant(approvals[id], calls[callId], now)];
      approvals := approvals[id := approvals[id].(verdict := Approved)];
      approvalWaiters := approvalWaiters - {callId};
      if callId in executions {
        executions := executions[callId := executions[callId].(phase := Released)];
      }
    }

    /** One entry of the list of approvals: pending and expired ones end their run. */
    method SweepEntry(id: Slot)
      modifies `runs, `canceled, `aborted, `calls, `approvals, `approvalWaiters, `executions
      ensures Now() == Sweep(old(Now()), id)
    {
      if id in approvals && approvals[id].verdict == Pending && approvals[id].expiresAt <= now
        && approvals[id].callId in calls
      {
        var callId := approvals[id].callId;
        var run := calls[callId].runId;
        approvals := approvals[id := approvals[id].(verdict := Expired)];
        if run in controllers {
          AbortController(run, ApprovalExpired);
        }
        if !CallOver(calls[callId].state) {
          calls := calls[callId := calls[callId].(state := Canceled)];
        }
        if run in runs && !RunOver(runs[run]) {
          UpdateRun(run, Stopped);
        }
      }
    }

    method ApprovalTimer(slot: Slot)
      modifies `aborted, `approvals, `approvalWaiters, `executions
      ensures Now() == ExpiryTimer(old(Now()), slot)
    {
      if slot in executions && executions[slot].phase == Waiting && executions[slot].expiresAt <= now
        && slot in approvals
      {
        approvals := approvals[slot := approvals[slot].(verdict := Expired)];
        AbortController(slot.run, ApprovalExpired);
      }
    }

    /** The time limit or the loss of the terminal aborts a run. */
    method AbortFromOutside(run: RunId, reason: Reason)
      modifies `aborted, `approvalWaiters, `executions
      ensures Now() == AbortRegistered(old(Now()), run, reason)
    {
      if run in controllers {
        AbortController(run, reason);
      }
    }

    /** The end of a run that succeeded, failed or was aborted. */
    method RunEnded(run: RunId, well: bool)
      requires run in controllers ==> run in aborted || Idle(Now(), run)
      modifies `runs, `canceled, `controllers, `workTargets
      ensures Now() == EndRun(old(Now()), run, well)
    {
      if run in controllers && run in runs {
        if well {
          UpdateRun(run, Complete);
        } else if !RunOver(runs[run]) {
          UpdateRun(run, if run in aborted && aborted[run] != TimeLimit then Stopped else Broken);
        }
        workTargets := map t | t in workTargets && workTargets[t] != run :: workTargets[t];
        controllers := controllers - {run};
      }
    }

    /** The stored rows change behind the service's back. */
    method AlterRow(slot: Slot, fields: Fields, argsHash: Option<Fingerprint>, state: CallState, source: Option<Source>)
      requires slot in calls
      modifies `calls, `rehashed
      ensures Now() == AlterStored(old(Now()), slot, fields, argsHash, state, source)
    {
      if argsHash != calls[slot].argsHash {
        rehashed := rehashed + {slot};
      }
      calls := calls[slot := Call(calls[slot].runId, fields, argsHash, state, source)];
    }

    // ----- any interleaving -----

    /** The steps of a command itself. */
    method PerformCommand(step: Step)
      requires OfCommand(step)
      modifies `runs, `steps, `calls, `approvals, `approvalWaiters, `executions, `started, `canceled
      ensures Now() == Next(old(Now()), step, commandGeneration)
    {
      hide Begin, Propose, Judge, Resume, Conclude;
      match step {
        case BeginCommand(run) => NextStep(run);
        case ProposeCommand(slot, command, target, ok) => ProposeCall(slot, command, target, ok);
        case JudgeCommand(slot, decision, risk, ok) => ReviewDone(slot, decision, risk, ok);
        case ResumeCommand(slot) => PromiseSettled(slot);
        case ConcludeCommand(slot, exitedWell, threw) => ToolReturned(slot, exitedWell, threw);
      }
    }

    /** The steps of humans, timers and runs. */
    method PerformAround(step: Step)
      requires !OfCommand(step)
      requires step.FinishRun? && step.run in controllers ==> step.run in aborted || Idle(Now(), step.run)
      modifies `now, `runs, `controllers, `aborted, `steps, `workTargets, `calls, `approvals, `approvalWaiters,
        `executions, `granted, `canceled, `rehashed
      ensures Now() == Next(old(Now()), step, commandGeneration)
    {
      hide Admit, ReviewedCommands.Decide, Sweep, ExpiryTimer, ReviewedCommands.Cancel, AbortRegistered, EndRun;
      match step {
        case Tick(elapsed) => now := now + elapsed;
        case AdmitRun(run, terminal) => var _ := StartRun(run, terminal);
        case DecideApproval(id, approve, argsHash) => Decide(id, approve, argsHash);
        case SweepApproval(id) => SweepEntry(id);
        case FireExpiry(slot) => ApprovalTimer(slot);
        case CancelRun(run) => Cancel(run);
        case AbortRun(run, reason) => AbortFromOutside(run, reason);
        case FinishRun(run, well) => RunEnded(run, well);
        case AlterCall(slot, fields, argsHash, state, source) =>
          if slot in calls { AlterRow(slot, fields, argsHash, state, source); }
        case AlterApproval(id, approval) =>
          if id in approvals { approvals := approvals[id := approval]; }
      }
    }

    /** Whatever is due next, the object stays in the state its steps lead to. */
    method Take(step: Step)
      requires Valid()
      requires step.FinishRun? && step.run in controllers ==> step.run in aborted || Idle(Now(), step.run)
      modifies this
      ensures Valid() && trace == old(trace) + [step]
    {
      hide After, Next;
      if OfCommand(step) {
        PerformCommand(step);
      } else {
        PerformAround(step);
      }
      trace := trace + [step];
      AfterStep(old(trace), step, commandGeneration);
    }
  }

  predicate OfCommand(step: Step) {
    step.BeginCommand? || step.ProposeCommand? || step.JudgeCommand? || step.ResumeCommand? || step.ConcludeCommand?
  }

  lemma AfterStep(trace: seq<Step>, step: Step, generation: nat)
    ensures After(trace + [step], generation) == Next(After(trace, generation), step, generation)
  {
    hide Next;
    assert (trace + [step])[..|trace|] == trace;
  }
}
