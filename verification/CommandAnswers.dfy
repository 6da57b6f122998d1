/**
 What each step of the protocol leaves behind, said of the stored rows: a rejection, a cancellation, an expiry, a
 failure, a result. Over whole runs, a rejected or canceled command never starts, and the state of a call tells
 what last happened to it.
 */
module CommandAnswers {
  import opened Common
  import opened ReviewedCommands
  import opened CommandProgress

  // ----- decisions -----

  /** The approval is pending, and the stored call and its run still wait for it. */
  predicate Fits(s: State, id: Slot, argsHash: Option<Fingerprint>) {
    && id in s.approvals && s.approvals[id].callId in s.calls
    && var approval, call := s.approvals[id], s.calls[s.approvals[id].callId];
    && approval.verdict == Pending && approval.argsHash == argsHash && call.argsHash == argsHash
    && approval.runId == call.runId && approval.target == call.fields.target
    && call.state == AwaitingApproval && approval.runId in s.runs && s.runs[approval.runId] == OnHold
  }

  /** It is decided in time, on the command as it was shown, and the code of the command still waits. */
  predicate Timely(s: State, id: Slot, generation: nat)
    requires id in s.approvals && s.approvals[id].callId in s.calls
  {
    var approval, call := s.approvals[id], s.calls[s.approvals[id].callId];
    && s.now < approval.expiresAt && approval.argsHash == Some(Fingerprint(call.fields, approval.expiresAt))
    && call.fields.review.generation == generation && approval.callId in s.waiters
  }

  predicate Overdue(s: State, id: Slot) {
    id in s.approvals && s.approvals[id].verdict == Pending && s.approvals[id].expiresAt <= s.now
  }

  predicate Open(call: Call) {
    call.state == Proposed || call.state == AwaitingApproval || call.state == Executing
  }

  predicate Going(s: State, run: RunId) {
    run in s.runs && (s.runs[run] == Active || s.runs[run] == OnHold)
  }

  // ----- what happens to the rows of a run -----

  /** The run is aborted, for this reason unless it was aborted before, and no other. */
  predicate AbortedNow(s: State, t: State, run: RunId, reason: Reason) {
    t.aborted == if run in s.aborted then s.aborted else s.aborted[run := reason]
  }

  /** Every command of the run that waits for its approval is refused, and no other command moves. */
  ghost predicate WaitersRefused(s: State, t: State, run: RunId) {
    && (forall slot :: slot in t.waiters <==> slot in s.waiters && slot.run != run)
    && (forall slot :: slot in t.executions <==> slot in s.executions)
    && (forall slot :: slot in s.executions ==>
          t.executions[slot] ==
          if slot in s.waiters && slot.run == run then s.executions[slot].(phase := Refused) else s.executions[slot])
  }

  /** Pending approvals of the run are rejected, its open calls are canceled, and all other rows are as they were. */
  ghost predicate RowsClosed(s: State, t: State, run: RunId) {
    && (forall id :: id in t.approvals <==> id in s.approvals)
    && (forall id :: id in s.approvals ==>
          t.approvals[id] ==
          if s.approvals[id].runId == run && s.approvals[id].verdict == Pending
          then s.approvals[id].(verdict := Rejected) else s.approvals[id])
    && (forall slot :: slot in t.calls <==> slot in s.calls)
    && (forall slot :: slot in s.calls ==>
          t.calls[slot] ==
          if s.calls[slot].runId == run && Open(s.calls[slot])
          then s.calls[slot].(state := Canceled) else s.calls[slot])
  }

  /** The signal reaches a run that is registered: one that was admitted and has not ended. */
  ghost predicate Signaled(s: State, t: State, run: RunId, reason: Reason) {
    if run in s.registered then AbortedNow(s, t, run, reason) && WaitersRefused(s, t, run)
    else t.aborted == s.aborted && t.waiters == s.waiters && t.executions == s.executions
  }

  /** What no decision, signal or expiry touches. */
  predicate RestKept(s: State, t: State) {
    && t.now == s.now && t.registered == s.registered && t.steps == s.steps && t.workTargets == s.workTargets
    && t.started == s.started && t.rehashed == s.rehashed
  }

  predicate RunStopped(s: State, t: State, run: RunId) {
    t.runs == s.runs[run := Stopped] && t.canceled == s.canceled + {run}
  }

  lemma SignalSent(s: State, run: RunId, reason: Reason)
    requires WaitersKnown(s)
    ensures var t := AbortRegistered(s, run, reason);
            && Signaled(s, t, run, reason)
            && t == s.(aborted := t.aborted, waiters := t.waiters, executions := t.executions)
  {
  }

  lemma RowsOf(s: State, run: RunId)
    ensures RowsClosed(s, CloseRows(s, run), run)
    ensures var t := CloseRows(s, run); t == s.(approvals := t.approvals, calls := t.calls)
  {
  }

  /** Canceling a run that goes on aborts and stops it, rejects what is pending and cancels what is open. */
  lemma CancelTells(s: State, run: RunId)
    requires WaitersKnown(s)
    ensures var t := Cancel(s, run);
            && Signaled(s, t, run, Requested) && RestKept(s, t) && t.granted == s.granted
            && if Going(s, run) then RowsClosed(s, t, run) && RunStopped(s, t, run)
               else && t.approvals == s.approvals && t.calls == s.calls && t.runs == s.runs && t.canceled == s.canceled
  {
    SignalSent(s, run, Requested);
    var stopped := AbortRegistered(s, run, Requested);
    RowsOf(stopped, run);
    hide AbortRegistered, CloseRows, WaitersKnown, RowsClosed, WaitersRefused;
    if Going(s, run) {
      SameRows(s, stopped, CloseRows(stopped, run), run);
      SameClosed(s, CloseRows(stopped, run), Cancel(s, run), run);
    }
    SameSignal(s, stopped, Cancel(s, run), run, Requested);
  }

  lemma SameSignal(s: State, t: State, u: State, run: RunId, reason: Reason)
    requires Signaled(s, t, run, reason)
    requires u.aborted == t.aborted && u.waiters == t.waiters && u.executions == t.executions
    ensures Signaled(s, u, run, reason)
  {
  }

  lemma SameRows(s: State, t: State, u: State, run: RunId)
    requires t.approvals == s.approvals && t.calls == s.calls && RowsClosed(t, u, run)
    ensures RowsClosed(s, u, run)
  {
  }

  lemma SameClosed(s: State, t: State, u: State, run: RunId)
    requires u.approvals == t.approvals && u.calls == t.calls
    ensures RowsClosed(s, t, run) ==> RowsClosed(s, u, run)
  {
  }

  /** A rejection in time cancels the whole run: whatever waits in it is refused, and nothing of another run changes. */
  lemma RejectionTells(s: State, id: Slot, argsHash: Option<Fingerprint>, generation: nat)
    requires Inv(s, generation) && Fits(s, id, argsHash) && Timely(s, id, generation)
    ensures var t, run := Decide(s, id, false, argsHash, generation), s.approvals[id].runId;
            && run in s.registered && run !in s.aborted && s.approvals[id].callId.run == run
            && t.aborted == s.aborted[run := Requested] && WaitersRefused(s, t, run)
            && RowsClosed(s, t, run) && t.approvals[id].verdict == Rejected
            && t.calls[s.approvals[id].callId].state == Canceled
            && t.executions[s.approvals[id].callId].phase == Refused
            && RunStopped(s, t, run) && RestKept(s, t) && t.granted == s.granted
  {
    hide Cancel;
    var run := s.approvals[id].runId;
    assert InPhase(s, s.approvals[id].callId, Waiting);
    CancelTells(s, run);
  }

  /** An approval in time releases its command and is recorded; nothing else changes. */
  lemma GrantTells(s: State, id: Slot, argsHash: Option<Fingerprint>, generation: nat)
    requires Inv(s, generation) && Fits(s, id, argsHash) && Timely(s, id, generation)
    ensures var t, slot := Decide(s, id, true, argsHash, generation), s.approvals[id].callId;
            && t.approvals == s.approvals[id := s.approvals[id].(verdict := Approved)]
            && t.waiters == s.waiters - {slot}
            && slot in s.executions
            && t.executions == s.executions[slot := s.executions[slot].(phase := Released)]
            && t.granted == s.granted + [Grant(s.approvals[id], s.calls[slot], s.now)]
            && RestKept(s, t) && t.runs == s.runs && t.calls == s.calls && t.aborted == s.aborted
            && t.canceled == s.canceled
  {
    assert InPhase(s, s.approvals[id].callId, Waiting);
  }

  /** A decision that comes too late, either way, expires the approval, cancels its call and stops its run. */
  lemma LateTells(s: State, id: Slot, approve: bool, argsHash: Option<Fingerprint>, generation: nat)
    requires WaitersKnown(s) && Fits(s, id, argsHash) && Overdue(s, id)
    ensures var t := Decide(s, id, approve, argsHash, generation);
            var run, slot := s.approvals[id].runId, s.approvals[id].callId;
            && t.approvals == s.approvals[id := s.approvals[id].(verdict := Expired)]
            && t.calls == s.calls[slot := s.calls[slot].(state := Canceled)]
            && Signaled(s, t, run, ApprovalExpired) && RunStopped(s, t, run)
            && RestKept(s, t) && t.granted == s.granted
  {
    hide AbortRegistered;
    var expired := SetVerdict(s, id, Expired);
    SignalSent(expired, s.approvals[id].runId, ApprovalExpired);
  }

  /** Any other decision changes nothing. */
  lemma OtherwiseIgnored(s: State, id: Slot, approve: bool, argsHash: Option<Fingerprint>, generation: nat)
    requires !(Fits(s, id, argsHash) && (Overdue(s, id) || Timely(s, id, generation)))
    ensures Decide(s, id, approve, argsHash, generation) == s
  {
    hide ExpireDecided, Cancel, Release;
  }

  /** The call is canceled if it is open, and the run stopped if it goes on. */
  predicate Ended(s: State, t: State, slot: Slot, run: RunId) {
    && slot in s.calls
    && t.calls == (if Open(s.calls[slot]) then s.calls[slot := s.calls[slot].(state := Canceled)] else s.calls)
    && if Going(s, run) then RunStopped(s, t, run) else t.runs == s.runs && t.canceled == s.canceled
  }

  /** Listing expires what is overdue, with its call if that is open and its run if that goes on. */
  lemma SweepTells(s: State, id: Slot)
    requires WaitersKnown(s)
    ensures var t := Sweep(s, id);
            if Overdue(s, id) && s.approvals[id].callId in s.calls then
              var run := s.calls[s.approvals[id].callId].runId;
              && t.approvals == s.approvals[id := s.approvals[id].(verdict := Expired)]
              && Ended(s, t, s.approvals[id].callId, run) && Signaled(s, t, run, ApprovalExpired)
              && RestKept(s, t) && t.granted == s.granted
            else t == s
  {
    if Overdue(s, id) && s.approvals[id].callId in s.calls {
      hide AbortRegistered, WaitersRefused, WaitersKnown;
      var slot := s.approvals[id].callId;
      var run := s.calls[slot].runId;
      var expired := SetVerdict(s, id, Expired);
      var sent := AbortRegistered(expired, run, ApprovalExpired);
      SignalSent(expired, run, ApprovalExpired);
      assert Signaled(s, sent, run, ApprovalExpired);
      assert Sweep(s, id) == Closing(sent, slot, run);
      hide SetVerdict, Sweep;
      ClosingEnds(sent, slot, run);
      SameSignal(s, sent, Closing(sent, slot, run), run, ApprovalExpired);
    }
  }

  /** Cancel the call if it is open, and stop the run if it goes on. */
  function Closing(s: State, slot: Slot, run: RunId): State
    requires slot in s.calls
  {
    var closed := if Open(s.calls[slot]) then s.(calls := s.calls[slot := s.calls[slot].(state := Canceled)]) else s;
    if Going(s, run) then SetRun(closed, run, Stopped) else closed
  }

  lemma ClosingEnds(s: State, slot: Slot, run: RunId)
    requires slot in s.calls
    ensures var t := Closing(s, slot, run);
            && Ended(s, t, slot, run) && t == s.(calls := t.calls, runs := t.runs, canceled := t.canceled)
  {
  }

  /** The timer of a waiting command expires its approval and aborts its run; the rest is for the code that waited. */
  lemma TimerTells(s: State, slot: Slot)
    requires WaitersKnown(s)
    ensures var t := ExpiryTimer(s, slot);
            if slot in s.waiters && s.executions[slot].expiresAt <= s.now && slot in s.approvals then
              && t.approvals == s.approvals[slot := s.approvals[slot].(verdict := Expired)]
              && t.aborted == s.aborted[slot.run := ApprovalExpired] && WaitersRefused(s, t, slot.run)
              && t.calls == s.calls && t.runs == s.runs && t.canceled == s.canceled
              && RestKept(s, t) && t.granted == s.granted
            else t == s
  {
  }

  // ----- the code of a command -----

  /** The call is unused, bound to what was reviewed, in the state that its review asks for, and in time. */
  predicate Passes(call: Call, execution: Execution, now: nat, generation: nat) {
    && call.argsHash == Some(Fingerprint(call.fields, execution.expiresAt)) && call.source == None
    && call.state == (if execution.decision == AutoApprove then Proposed else AwaitingApproval)
    && call.fields.review.generation == generation && now < execution.expiresAt
  }

  /** A command fails: its code is over, its open call and its run end as failed, or canceled if the run was aborted. */
  ghost predicate CommandFailed(s: State, t: State, slot: Slot) {
    var canceled := slot.run in s.aborted && s.aborted[slot.run] != TimeLimit;
    && slot in s.executions
    && t.executions == s.executions[slot := s.executions[slot].(phase := Finished)]
    && t.calls == (if slot in s.calls && Open(s.calls[slot])
                   then s.calls[slot := s.calls[slot].(state := if canceled then Canceled else Failed)] else s.calls)
    && RunFailed(s, t, slot.run)
    && t.approvals == s.approvals && t.waiters == s.waiters && t.aborted == s.aborted
    && RestKept(s, t) && t.granted == s.granted
  }

  predicate RunFailed(s: State, t: State, run: RunId) {
    if run in s.runs && (s.runs[run] == Broken || s.runs[run] == Stopped)
    then t.runs == s.runs && t.canceled == s.canceled
    else if run in s.aborted && s.aborted[run] != TimeLimit then RunStopped(s, t, run)
    else t.runs == s.runs[run := Broken] && t.canceled == s.canceled
  }

  /** A command starts as it is stored; only its source and its state are set. */
  predicate CommandStarted(s: State, t: State, slot: Slot, source: Source) {
    && slot in s.calls && slot in s.executions
    && t.calls == s.calls[slot := s.calls[slot].(source := Some(source), state := Executing)]
    && t.executions == s.executions[slot := s.executions[slot].(phase := Started)]
    && t.started ==
       s.started + [Start(slot, s.calls[slot], s.executions[slot].decision, s.executions[slot].expiresAt, s.now)]
    && t.runs == s.runs[slot.run := Active] && t.canceled == s.canceled
    && t.approvals == s.approvals && t.waiters == s.waiters && t.aborted == s.aborted && t.granted == s.granted
    && t.now == s.now && t.registered == s.registered && t.steps == s.steps && t.workTargets == s.workTargets
    && t.rehashed == s.rehashed
  }

  lemma FailRunTells(s: State, run: RunId)
    ensures var t := FailRun(s, run); RunFailed(s, t, run) && t == s.(runs := t.runs, canceled := t.canceled)
  {
  }

  lemma FailTells(s: State, slot: Slot)
    requires slot in s.executions
    ensures CommandFailed(s, Fail(s, slot), slot)
  {
    hide FailRun, SetRun;
    var stored :=
      if slot in s.calls && Open(s.calls[slot])
      then s.(calls := s.calls[slot := s.calls[slot].(state := if EndsCanceled(s, slot.run) then Canceled else Failed)])
      else s;
    FailRunTells(stored, slot.run);
  }

  lemma LaunchTells(s: State, slot: Slot, generation: nat)
    requires slot in s.executions && slot in s.calls
    ensures var t := Launch(s, slot, generation);
            if slot.run !in s.aborted && Passes(s.calls[slot], s.executions[slot], s.now, generation)
            then CommandStarted(s, t, slot, if s.executions[slot].decision == AutoApprove then Automatic else User)
            else CommandFailed(s, t, slot)
  {
    hide Fail;
    FailTells(s, slot);
  }

  /** Where the code waits for a human, a settled promise starts the command or ends it. */
  lemma ResumeTells(s: State, slot: Slot, generation: nat)
    requires WaitersKnown(s)
    ensures var t := Resume(s, slot, generation);
            if InPhase(s, slot, Released) && slot in s.calls && slot.run !in s.aborted
               && Passes(s.calls[slot], s.executions[slot], s.now, generation)
            then CommandStarted(s, t, slot, User)
            else if InPhase(s, slot, Refused) || (InPhase(s, slot, Released) && slot in s.calls)
            then CommandFailed(s, t, slot)
            else t == s
  {
    hide Fail, Launch, Passes;
    if slot in s.executions {
      FailTells(s, slot);
      if slot in s.calls { LaunchTells(s, slot, generation); }
    }
  }

  /** A result is stored as the tool reports it, unless the run was aborted meanwhile. */
  lemma ConcludeTells(s: State, slot: Slot, exitedWell: bool, threw: bool)
    ensures var t := Conclude(s, slot, exitedWell, threw);
            if !InPhase(s, slot, Started) || slot !in s.calls then t == s
            else if threw || slot.run in s.aborted then CommandFailed(s, t, slot)
            else t == s.(
              calls := s.calls[slot := s.calls[slot].(state := if exitedWell then Succeeded else Failed)],
              executions := s.executions[slot := s.executions[slot].(phase := Finished)])
  {
    hide Fail;
    if slot in s.executions { FailTells(s, slot); }
  }

  /** Until when a reviewed command may start: a minute, or ten where a human is asked. */
  function Deadline(now: nat, decision: Decision): nat {
    if decision == AskUser then now + 600_000 else now + 60_000
  }

  /** The bound call is put before a human, and its code waits. */
  predicate HumanAsked(s: State, t: State, slot: Slot) {
    && slot in s.calls && slot in s.executions
    && t.approvals == s.approvals[slot :=
         Approval(slot.run, slot, s.calls[slot].argsHash, s.calls[slot].fields.target, s.executions[slot].expiresAt,
                  Pending)]
    && t.calls == s.calls[slot := s.calls[slot].(state := AwaitingApproval)]
    && t.executions == s.executions[slot := s.executions[slot].(phase := Waiting)]
    && t.waiters == s.waiters + {slot} && t.runs == s.runs[slot.run := OnHold]
    && RestKept(s, t) && t.aborted == s.aborted && t.granted == s.granted && t.canceled == s.canceled
  }

  /** The state with the review stored and bound; command, target and run of the call stay as they were proposed. */
  function Reviewed(s: State, slot: Slot, decision: Decision, risk: nat, generation: nat): State
    requires slot in s.calls && slot in s.executions
  {
    var expiresAt := Deadline(s.now, decision);
    var fields := s.calls[slot].fields.(
      review := Review(decision, generation, expiresAt), risk := risk, step := slot.step);
    s.(
      calls := s.calls[slot := s.calls[slot].(fields := fields, argsHash := Some(Fingerprint(fields, expiresAt)))],
      executions := s.executions[slot := Execution(Reviewing, decision, expiresAt)])
  }

  /**
   A review that is back in time is stored and bound. Then a rejected command fails, a doubtful one is put before
   a human, and one that the review lets pass starts if its call is still as it was proposed.
   */
  lemma JudgeTells(s: State, slot: Slot, decision: Decision, risk: nat, generation: nat, ok: bool)
    requires Counted(s)
    ensures var t := Judge(s, slot, decision, risk, generation, ok);
            if !InPhase(s, slot, Reviewing) || slot !in s.calls then t == s
            else if !ok || slot.run in s.aborted then CommandFailed(s, t, slot)
            else
              var bound := Reviewed(s, slot, decision, risk, generation);
              match decision
              case Reject => CommandFailed(bound, t, slot)
              case AskUser => HumanAsked(bound, t, slot)
              case AutoApprove =>
                if s.calls[slot].source == None && s.calls[slot].state == Proposed
                then CommandStarted(bound, t, slot, Automatic) else CommandFailed(bound, t, slot)
  {
    if InPhase(s, slot, Reviewing) && slot in s.calls {
      hide Fail, Launch, AskHuman, CommandFailed, CommandStarted, HumanAsked;
      var bound := Reviewed(s, slot, decision, risk, generation);
      BoundReviewed(s, slot, decision, risk, generation);
      hide Bind;
      FailTells(s, slot);
      FailTells(bound, slot);
      AskTells(bound, slot);
      if slot.run !in s.aborted && decision == AutoApprove {
        ReviewedLaunches(s, slot, decision, risk, generation);
      }
    }
  }

  lemma BoundReviewed(s: State, slot: Slot, decision: Decision, risk: nat, generation: nat)
    requires slot in s.calls && slot in s.executions
    ensures var expiresAt := Expiry(s.now, decision);
            Reviewed(s, slot, decision, risk, generation) == s.(
              calls := s.calls[slot :=
                Bind(s.calls[slot], Review(decision, generation, expiresAt), risk, slot.step)],
              executions := s.executions[slot := Execution(Reviewing, decision, expiresAt)])
  {
  }

  lemma AskTells(s: State, slot: Slot)
    requires slot in s.executions && slot in s.calls && s.calls[slot].runId == slot.run
    ensures HumanAsked(s, AskHuman(s, slot), slot)
  {
  }

  lemma ReviewedLaunches(s: State, slot: Slot, decision: Decision, risk: nat, generation: nat)
    requires slot in s.executions && slot in s.calls && slot.run !in s.aborted && decision == AutoApprove
    ensures var bound := Reviewed(s, slot, decision, risk, generation);
            var t := Launch(bound, slot, generation);
            if s.calls[slot].source == None && s.calls[slot].state == Proposed
            then CommandStarted(bound, t, slot, Automatic) else CommandFailed(bound, t, slot)
  {
    hide Launch, CommandStarted, CommandFailed;
    LaunchTells(Reviewed(s, slot, decision, risk, generation), slot, generation);
  }

  // ----- the rest of a run -----

  /** The next command of a run takes the next number; an aborted run or an empty budget fails the run instead. */
  lemma BeginTells(s: State, run: RunId)
    ensures var t := Begin(s, run);
            if run !in s.registered || run !in s.steps then t == s
            else
              && (if run in s.aborted then t.steps == s.steps else t.steps == s.steps[run := s.steps[run] + 1])
              && t == s.(steps := t.steps, executions := t.executions, runs := t.runs, canceled := t.canceled)
              && if run !in s.aborted && s.steps[run] < 50
                 then t.runs == s.runs && t.canceled == s.canceled
                   && t.executions ==
                      s.executions[Slot(run, s.steps[run] + 1) := Execution(Preparing, AskUser, 0)]
                 else t.executions == s.executions && RunFailed(s, t, run)
  {
    hide FailRun;
    if run in s.steps {
      FailRunTells(s, run);
      FailRunTells(s.(steps := s.steps[run := s.steps[run] + 1]), run);
    }
  }

  /** With its target at hand a command is stored as proposed, to be reviewed; without, it fails. */
  lemma ProposeTells(s: State, slot: Slot, command: string, target: Terminal, generation: nat, ok: bool)
    ensures var t := Propose(s, slot, command, target, generation, ok);
            if !InPhase(s, slot, Preparing) then t == s
            else if !ok then CommandFailed(s, t, slot)
            else
              && slot in t.calls && t.calls[slot].fields.command == command && t.calls[slot].fields.target == target
              && t.calls[slot].runId == slot.run && t.calls[slot].fields.step == slot.step
              && t.calls[slot].fields.risk == 1
              && t.calls[slot].fields.review == Review(AskUser, generation, Deadline(s.now, AutoApprove))
              && t.calls[slot].state == Proposed && t.calls[slot].argsHash == None && t.calls[slot].source == None
              && t.executions == s.executions[slot := s.executions[slot].(phase := Reviewing)]
              && t == s.(calls := s.calls[slot := t.calls[slot]], executions := t.executions)
  {
    hide Fail, CommandFailed;
    if slot in s.executions { FailTells(s, slot); }
  }

  /** A run that ends is complete if its stream ended well; otherwise it keeps an end it had, or has failed. */
  lemma EndTells(s: State, run: RunId, well: bool)
    ensures var t := EndRun(s, run, well);
            if run in s.registered && run in s.runs
               && (run in s.aborted || forall slot :: slot in s.executions && slot.run == run ==>
                     s.executions[slot].phase == Finished)
            then
              && t.registered == s.registered - {run}
              && (forall terminal :: terminal in t.workTargets <==>
                    terminal in s.workTargets && s.workTargets[terminal] != run)
              && (forall terminal :: terminal in t.workTargets ==>
                    t.workTargets[terminal] == s.workTargets[terminal])
              && (if well then t.runs == s.runs[run := Complete] && t.canceled == s.canceled
                  else if Going(s, run) then RunFailed(s, t, run)
                  else t.runs == s.runs && t.canceled == s.canceled)
              && t == s.(registered := t.registered, workTargets := t.workTargets, runs := t.runs,
                         canceled := t.canceled)
            else t == s
  {
  }

  // ----- over whole runs -----

  /** An aborted run starts nothing any more. */
  lemma {:induction false} AbortedStartsNothing(trace: seq<Step>, rest: seq<Step>, run: RunId, generation: nat)
    requires run in After(trace, generation).aborted
    ensures run in After(trace + rest, generation).aborted
    ensures var s, t := After(trace, generation), After(trace + rest, generation);
            && s.started <= t.started
            && forall k :: |s.started| <= k < |t.started| ==> t.started[k].slot.run != run
  {
    hide Next;
    if rest == [] {
      assert trace + rest == trace;
    } else {
      var n := |rest| - 1;
      AbortedStartsNothing(trace, rest[..n], run, generation);
      assert (trace + rest)[..|trace + rest| - 1] == trace + rest[..n];
      assert (trace + rest[..n]) + [rest[n]] == trace + rest;
      var t, u := After(trace + rest[..n], generation), After(trace + rest, generation);
      assert u == Next(t, rest[n], generation);
      StaysAborted(t, rest[n], run, generation);
      hide After;
      StartsOnlyUncanceled(trace + rest[..n], rest[n], generation);
    }
  }

  /** What a human rejects in time never starts, whatever follows, and neither does any other command of its run. */
  lemma RejectedNeverStarts(trace: seq<Step>, id: Slot, argsHash: Option<Fingerprint>, rest: seq<Step>, generation: nat)
    requires Fits(After(trace, generation), id, argsHash) && Timely(After(trace, generation), id, generation)
    ensures var decided := trace + [DecideApproval(id, false, argsHash)];
            var s, t := After(trace, generation), After(decided + rest, generation);
            && (forall k :: 0 <= k < |t.started| ==> t.started[k].slot != s.approvals[id].callId)
            && s.started <= t.started
            && forall k :: |s.started| <= k < |t.started| ==> t.started[k].slot.run != s.approvals[id].runId
  {
    var s, step := After(trace, generation), DecideApproval(id, false, argsHash);
    assert id in s.approvals;
    hide Decide, Inv, Fits, Timely;
    Reachable(trace, generation);
    assert (trace + [step])[..|trace|] == trace;
    TimelyWaits(s, id, argsHash, generation);
    assert After(trace + [step], generation) == Decide(s, id, false, argsHash, generation);
    hide After, Next;
    AbortedStartsNothing(trace + [step], rest, s.approvals[id].runId, generation);
  }

  lemma TimelyWaits(s: State, id: Slot, argsHash: Option<Fingerprint>, generation: nat)
    requires Inv(s, generation) && Fits(s, id, argsHash) && Timely(s, id, generation)
    ensures s.approvals[id].callId.run == s.approvals[id].runId
    ensures forall k :: 0 <= k < |s.started| ==> s.started[k].slot != s.approvals[id].callId
    ensures s.approvals[id].runId in Decide(s, id, false, argsHash, generation).aborted
    ensures Decide(s, id, false, argsHash, generation).started == s.started
  {
    RejectionTells(s, id, argsHash, generation);
    hide Decide, WaitersRefused, RowsClosed;
    assert InPhase(s, s.approvals[id].callId, Waiting);
    forall k | 0 <= k < |s.started| ensures s.started[k].slot != s.approvals[id].callId {
      assert Launched(s, s.started[k].slot);
    }
  }

  /** The same for a run that is canceled before it has ended. */
  lemma CanceledStartsNothing(trace: seq<Step>, run: RunId, rest: seq<Step>, generation: nat)
    requires run in After(trace, generation).registered
    ensures var s, t := After(trace, generation), After(trace + [CancelRun(run)] + rest, generation);
            && s.started <= t.started
            && forall k :: |s.started| <= k < |t.started| ==> t.started[k].slot.run != run
  {
    hide Cancel, WaitersRefused, RowsClosed;
    var s := After(trace, generation);
    Reachable(trace, generation);
    assert (trace + [CancelRun(run)])[..|trace|] == trace;
    assert After(trace + [CancelRun(run)], generation) == Cancel(s, run);
    CancelTells(s, run);
    AbortedStartsNothing(trace + [CancelRun(run)], rest, run, generation);
  }

  // ----- what the state of a call tells -----

  /** What can happen to a call. */
  datatype Event =
    | Proposal | Question | Launching | Result(well: bool) | Failure | Cancellation | Alteration(state: CallState)

  function Shown(event: Event): CallState {
    match event
    case Proposal => Proposed
    case Question => AwaitingApproval
    case Launching => Executing
    case Result(well) => if well then Succeeded else Failed
    case Failure => Failed
    case Cancellation => Canceled
    case Alteration(state) => state
  }

  /** A failure ends an open call, as canceled if its run was aborted for another reason than its time. */
  function FailureOf(s: State, slot: Slot): Option<Event> {
    if slot !in s.calls || !Open(s.calls[slot]) then None
    else if slot.run in s.aborted && s.aborted[slot.run] != TimeLimit then Some(Cancellation)
    else Some(Failure)
  }

  /** What a step of its own code means for the call of a command. */
  function OwnEvent(s: State, step: Step, slot: Slot, generation: nat): Option<Event> {
    match step
    case ProposeCommand(_, _, _, ok) =>
      if !InPhase(s, slot, Preparing) then None else if ok then Some(Proposal) else FailureOf(s, slot)
    case JudgeCommand(_, decision, _, ok) =>
      if !InPhase(s, slot, Reviewing) || slot !in s.calls then None
      else if !ok || slot.run in s.aborted || decision == Reject then FailureOf(s, slot)
      else if decision == AskUser then Some(Question)
      else if s.calls[slot].source == None && s.calls[slot].state == Proposed then Some(Launching)
      else FailureOf(s, slot)
    case ResumeCommand(_) =>
      if InPhase(s, slot, Refused) then FailureOf(s, slot)
      else if !InPhase(s, slot, Released) || slot !in s.calls then None
      else if slot.run !in s.aborted && Passes(s.calls[slot], s.executions[slot], s.now, generation)
      then Some(Launching)
      else FailureOf(s, slot)
    case ConcludeCommand(_, exitedWell, threw) =>
      if !InPhase(s, slot, Started) || slot !in s.calls then None
      else if threw || slot.run in s.aborted then FailureOf(s, slot)
      else Some(Result(exitedWell))
    case _ => None
  }

  predicate OfSlot(step: Step, slot: Slot) {
    (step.ProposeCommand? || step.JudgeCommand? || step.ResumeCommand? || step.ConcludeCommand?) && step.slot == slot
  }

  /** A step cancels an open call by closing its run or expiring its approval. */
  predicate CancelsCall(s: State, step: Step, slot: Slot, generation: nat) {
    && slot in s.calls && Open(s.calls[slot])
    && match step
       case CancelRun(run) => Going(s, run) && run == slot.run
       case DecideApproval(id, approve, argsHash) =>
         Fits(s, id, argsHash)
         && if Overdue(s, id) then s.approvals[id].callId == slot
            else !approve && Timely(s, id, generation) && s.approvals[id].runId == slot.run
       case SweepApproval(id) => Overdue(s, id) && s.approvals[id].callId == slot
       case _ => false
  }

  function EventOf(s: State, step: Step, slot: Slot, generation: nat): Option<Event> {
    if OfSlot(step, slot) then OwnEvent(s, step, slot, generation)
    else if CancelsCall(s, step, slot, generation) then Some(Cancellation)
    else if step.AlterCall? && step.slot == slot && slot in s.calls then Some(Alteration(step.state))
    else None
  }

  /** A call appears when it is proposed, and its state goes by its own event and by nothing else. */
  ghost predicate CallGoes(s: State, t: State, step: Step, slot: Slot, generation: nat) {
    var event := EventOf(s, step, slot, generation);
    && (slot in t.calls <==> slot in s.calls || event == Some(Proposal))
    && (slot in t.calls ==>
          t.calls[slot].state == if event.Some? then Shown(event.value) else s.calls[slot].state)
  }

  lemma OwnOnly(s: State, step: Step, slot: Slot, generation: nat)
    requires step.ProposeCommand? || step.JudgeCommand? || step.ResumeCommand? || step.ConcludeCommand?
    ensures EventOf(s, step, slot, generation) ==
            if step.slot == slot then OwnEvent(s, step, slot, generation) else None
  {
    hide OwnEvent;
  }

  lemma FailedShows(s: State, t: State, failed: Slot, slot: Slot)
    requires CommandFailed(s, t, failed)
    ensures slot in t.calls <==> slot in s.calls
    ensures slot in s.calls && slot != failed ==> t.calls[slot] == s.calls[slot]
    ensures failed in s.calls ==>
              t.calls[failed].state ==
              if FailureOf(s, failed).Some? then Shown(FailureOf(s, failed).value) else s.calls[failed].state
  {
  }

  lemma MovedShows(s: State, t: State, moved: Slot, slot: Slot)
    requires CommandStarted(s, t, moved, Automatic) || HumanAsked(s, t, moved)
    ensures slot in t.calls <==> slot in s.calls
    ensures slot in s.calls && slot != moved ==> t.calls[slot] == s.calls[slot]
    ensures moved in t.calls
    ensures HumanAsked(s, t, moved) ==> t.calls[moved].state == AwaitingApproval
    ensures CommandStarted(s, t, moved, Automatic) ==> t.calls[moved].state == Executing
  {
  }

  lemma ClosedShows(s: State, t: State, run: RunId, slot: Slot)
    requires RowsClosed(s, t, run) && (slot in s.calls ==> s.calls[slot].runId == slot.run)
    ensures slot in t.calls <==> slot in s.calls
    ensures slot in s.calls ==>
              t.calls[slot].state == if slot.run == run && Open(s.calls[slot]) then Canceled else s.calls[slot].state
  {
  }

  lemma ReviewedShows(s: State, slot: Slot, decision: Decision, risk: nat, generation: nat)
    requires slot in s.calls && slot in s.executions
    ensures var bound := Reviewed(s, slot, decision, risk, generation);
            && bound.calls == s.calls[slot := bound.calls[slot]] && slot in bound.executions
            && bound.calls[slot].state == s.calls[slot].state && FailureOf(bound, slot) == FailureOf(s, slot)
  {
  }

  lemma ProposeGoes(
    s: State, other: Slot, command: string, target: Terminal, ok: bool, slot: Slot, generation: nat)
    requires Counted(s)
    ensures CallGoes(s, Propose(s, other, command, target, generation, ok), ProposeCommand(other, command, target, ok),
              slot, generation)
  {
    hide Propose;
    ProposeTells(s, other, command, target, generation, ok);
  }

  lemma JudgeGoes(s: State, other: Slot, decision: Decision, risk: nat, ok: bool, slot: Slot, generation: nat)
    requires Counted(s)
    ensures CallGoes(s, Judge(s, other, decision, risk, generation, ok), JudgeCommand(other, decision, risk, ok),
              slot, generation)
  {
    hide Judge, CommandFailed, FailureOf, EventOf, Counted, Passes, CommandStarted, HumanAsked, Reviewed;
    var t := Judge(s, other, decision, risk, generation, ok);
    OwnOnly(s, JudgeCommand(other, decision, risk, ok), slot, generation);
    JudgeTells(s, other, decision, risk, generation, ok);
    if InPhase(s, other, Reviewing) && other in s.calls {
      if !ok || other.run in s.aborted {
        FailedShows(s, t, other, slot);
      } else {
        JudgedShows(s, t, other, decision, risk, generation, slot);
      }
    }
  }

  lemma JudgedShows(
    s: State, t: State, judged: Slot, decision: Decision, risk: nat, generation: nat, slot: Slot)
    requires judged in s.calls && judged in s.executions
    requires var bound := Reviewed(s, judged, decision, risk, generation);
             CommandFailed(bound, t, judged) || CommandStarted(bound, t, judged, Automatic)
             || HumanAsked(bound, t, judged)
    ensures var bound := Reviewed(s, judged, decision, risk, generation);
            && (slot in t.calls <==> slot in s.calls)
            && (slot in s.calls && slot != judged ==> t.calls[slot] == s.calls[slot])
            && (CommandStarted(bound, t, judged, Automatic) ==> t.calls[judged].state == Executing)
            && (HumanAsked(bound, t, judged) ==> t.calls[judged].state == AwaitingApproval)
            && (CommandFailed(bound, t, judged) ==>
                  t.calls[judged].state ==
                  if FailureOf(s, judged).Some? then Shown(FailureOf(s, judged).value) else s.calls[judged].state)
  {
    hide CommandFailed, CommandStarted, HumanAsked, Reviewed, FailureOf;
    var bound := Reviewed(s, judged, decision, risk, generation);
    ReviewedShows(s, judged, decision, risk, generation);
    if CommandFailed(bound, t, judged) { FailedShows(bound, t, judged, slot); }
    if CommandStarted(bound, t, judged, Automatic) || HumanAsked(bound, t, judged) {
      MovedShows(bound, t, judged, slot);
    }
  }

  lemma ResumeGoes(s: State, other: Slot, slot: Slot, generation: nat)
    requires WaitersKnown(s)
    ensures CallGoes(s, Resume(s, other, generation), ResumeCommand(other), slot, generation)
  {
    ResumeTells(s, other, generation);
    OwnOnly(s, ResumeCommand(other), slot, generation);
    var t := Resume(s, other, generation);
    hide Resume, Passes, WaitersKnown, EventOf, FailureOf, CommandFailed;
    if CommandFailed(s, t, other) { FailedShows(s, t, other, slot); }
  }

  lemma ConcludeGoes(s: State, other: Slot, exitedWell: bool, threw: bool, slot: Slot, generation: nat)
    ensures CallGoes(s, Conclude(s, other, exitedWell, threw), ConcludeCommand(other, exitedWell, threw),
              slot, generation)
  {
    hide Conclude;
    ConcludeTells(s, other, exitedWell, threw);
  }

  lemma RejectionGoes(s: State, id: Slot, argsHash: Option<Fingerprint>, slot: Slot, generation: nat)
    requires Inv(s, generation) && Fits(s, id, argsHash) && !Overdue(s, id) && Timely(s, id, generation)
    ensures CallGoes(s, Decide(s, id, false, argsHash, generation), DecideApproval(id, false, argsHash),
              slot, generation)
  {
    RejectionEvent(s, id, argsHash, slot, generation);
    hide Decide, Inv, Timely, EventOf, Overdue, RowsClosed, WaitersRefused;
    RunOfCall(s, slot, generation);
    assert RowsClosed(s, Decide(s, id, false, argsHash, generation), s.approvals[id].runId) by {
      RejectionTells(s, id, argsHash, generation);
    }
    ClosedShows(s, Decide(s, id, false, argsHash, generation), s.approvals[id].runId, slot);
  }

  lemma RejectionEvent(s: State, id: Slot, argsHash: Option<Fingerprint>, slot: Slot, generation: nat)
    requires Fits(s, id, argsHash) && !Overdue(s, id) && Timely(s, id, generation)
    ensures EventOf(s, DecideApproval(id, false, argsHash), slot, generation) ==
            if slot in s.calls && Open(s.calls[slot]) && s.approvals[id].runId == slot.run
            then Some(Cancellation) else None
  {
  }

  lemma RunOfCall(s: State, slot: Slot, generation: nat)
    requires Inv(s, generation)
    ensures slot in s.calls ==> s.calls[slot].runId == slot.run
  {
  }

  lemma LateGoes(
    s: State, id: Slot, approve: bool, argsHash: Option<Fingerprint>, slot: Slot, generation: nat)
    requires WaitersKnown(s) && Fits(s, id, argsHash) && Overdue(s, id)
    ensures CallGoes(s, Decide(s, id, approve, argsHash, generation), DecideApproval(id, approve, argsHash),
              slot, generation)
  {
    hide Decide, WaitersKnown, Signaled;
    LateTells(s, id, approve, argsHash, generation);
  }

  lemma DecideGoes(
    s: State, id: Slot, approve: bool, argsHash: Option<Fingerprint>, slot: Slot, generation: nat)
    requires Inv(s, generation)
    ensures CallGoes(s, Decide(s, id, approve, argsHash, generation), DecideApproval(id, approve, argsHash),
              slot, generation)
  {
    assert WaitersKnown(s);
    hide Decide, Timely, Inv, WaitersKnown;
    if !Fits(s, id, argsHash) || (!Overdue(s, id) && !Timely(s, id, generation)) {
      OtherwiseIgnored(s, id, approve, argsHash, generation);
    } else if Overdue(s, id) {
      LateGoes(s, id, approve, argsHash, slot, generation);
    } else if approve {
      GrantTells(s, id, argsHash, generation);
    } else {
      RejectionGoes(s, id, argsHash, slot, generation);
    }
  }

  lemma CancelGoes(s: State, run: RunId, slot: Slot, generation: nat)
    requires WaitersKnown(s) && (slot in s.calls ==> s.calls[slot].runId == slot.run)
    ensures CallGoes(s, Cancel(s, run), CancelRun(run), slot, generation)
  {
    hide Cancel, Signaled, WaitersKnown;
    CancelTells(s, run);
  }

  lemma SweepGoes(s: State, id: Slot, slot: Slot, generation: nat)
    requires WaitersKnown(s)
    ensures CallGoes(s, Sweep(s, id), SweepApproval(id), slot, generation)
  {
    hide Sweep, Signaled, WaitersKnown, OwnEvent, Going, RestKept;
    SweepTells(s, id);
  }

  lemma TimerGoes(s: State, other: Slot, slot: Slot, generation: nat)
    requires WaitersKnown(s)
    ensures CallGoes(s, ExpiryTimer(s, other), FireExpiry(other), slot, generation)
  {
    hide ExpiryTimer, WaitersRefused, WaitersKnown;
    TimerTells(s, other);
  }

  lemma CallTells(s: State, step: Step, slot: Slot, generation: nat)
    requires Inv(s, generation)
    ensures CallGoes(s, Next(s, step, generation), step, slot, generation)
  {
    assert Counted(s) && WaitersKnown(s);
    assert slot in s.calls ==> s.calls[slot].runId == slot.run;
    hide Inv, Counted, WaitersKnown, Propose, Judge, Resume, Conclude, Decide, Cancel, Sweep, ExpiryTimer, Begin,
      EndRun, CallGoes;
    match step {
      case ProposeCommand(other, command, target, ok) =>
        ProposeGoes(s, other, command, target, ok, slot, generation);
      case JudgeCommand(other, decision, risk, ok) => JudgeGoes(s, other, decision, risk, ok, slot, generation);
      case ResumeCommand(other) => ResumeGoes(s, other, slot, generation);
      case ConcludeCommand(other, exitedWell, threw) =>
        ConcludeGoes(s, other, exitedWell, threw, slot, generation);
      case DecideApproval(id, approve, argsHash) =>
        DecideGoes(s, id, approve, argsHash, slot, generation);
      case CancelRun(run) => CancelGoes(s, run, slot, generation);
      case SweepApproval(id) => SweepGoes(s, id, slot, generation);
      case FireExpiry(other) => TimerGoes(s, other, slot, generation);
      case _ => OtherGoes(s, step, slot, generation);
    }
  }

  predicate Elsewhere(step: Step) {
    step.Tick? || step.AdmitRun? || step.BeginCommand? || step.AbortRun? || step.FinishRun? || step.AlterApproval?
  }

  lemma OtherGoes(s: State, step: Step, slot: Slot, generation: nat)
    requires Elsewhere(step) || step.AlterCall?
    ensures CallGoes(s, Next(s, step, generation), step, slot, generation)
  {
    hide OwnEvent, Begin, EndRun;
    if Elsewhere(step) { CallsStay(s, step, generation); }
  }

  lemma CallsStay(s: State, step: Step, generation: nat)
    requires Elsewhere(step)
    ensures Next(s, step, generation).calls == s.calls
  {
    hide Begin, EndRun, RunFailed;
    match step {
      case BeginCommand(run) => BeginTells(s, run);
      case FinishRun(run, well) => EndTells(s, run, well);
      case _ =>
    }
  }

  /** The last thing that happened to a call. */
  function LastEvent(trace: seq<Step>, slot: Slot, generation: nat): Option<Event> {
    if trace == [] then None
    else
      var init, step := trace[..|trace| - 1], trace[|trace| - 1];
      var event := EventOf(After(init, generation), step, slot, generation);
      if event.Some? then event else LastEvent(init, slot, generation)
  }

  /** In every run the stored state of a call is what the last event that concerned it means. */
  lemma {:induction false} StateTellsLastEvent(trace: seq<Step>, slot: Slot, generation: nat)
    ensures var s, last := After(trace, generation), LastEvent(trace, slot, generation);
            && (slot in s.calls <==> last.Some?)
            && (last.Some? ==> s.calls[slot].state == Shown(last.value))
    decreases |trace|
  {
    if trace != [] {
      var init, step := trace[..|trace| - 1], trace[|trace| - 1];
      StateTellsLastEvent(init, slot, generation);
      Reachable(init, generation);
      CallTells(After(init, generation), step, slot, generation);
      EventHasCall(After(init, generation), step, slot, generation);
      hide Next, EventOf;
    }
  }

  lemma EventHasCall(s: State, step: Step, slot: Slot, generation: nat)
    ensures var event := EventOf(s, step, slot, generation);
            event.Some? && event != Some(Proposal) ==> slot in s.calls
  {
  }
}
