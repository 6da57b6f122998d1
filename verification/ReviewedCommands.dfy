/**
 Reviewed workspace commands: each command of a work run is reviewed, possibly put before a human,
 checked once more and only then executed. The state is what the service and its repository hold; a
 step is the code between two awaits, or something the surroundings do in between.

 Hashes are taken to be free of collisions, so a hash is the value it was computed from.
 */
module ReviewedCommands {
  import opened Common

  type RunId = nat
  type Terminal = nat

  const MAX_STEPS := 50
  const AUTOMATIC_LIFETIME := 60_000
  const APPROVAL_LIFETIME := 600_000

  /** A command of a run: the run and the number of the step it used up. */
  datatype Slot = Slot(run: RunId, step: nat)

  datatype Decision = AutoApprove | AskUser | Reject

  datatype Review = Review(decision: Decision, generation: nat, expiresAt: nat)

  datatype Fields = Fields(command: string, target: Terminal, risk: nat, review: Review, step: nat)

  datatype Fingerprint = Fingerprint(fields: Fields, expiresAt: nat)

  datatype CallState = Proposed | AwaitingApproval | Executing | Succeeded | Failed | Canceled

  datatype Source = Automatic | User

  datatype Call = Call(
    runId: RunId, fields: Fields, argsHash: Option<Fingerprint>, state: CallState, source: Option<Source>)

  datatype Verdict = Pending | Approved | Rejected | Expired

  datatype Approval = Approval(
    runId: RunId, callId: Slot, argsHash: Option<Fingerprint>, target: Terminal, expiresAt: nat, verdict: Verdict)

  datatype RunState = Active | OnHold | Complete | Broken | Stopped

  datatype Reason = Requested | ApprovalExpired | TimeLimit | TargetLost

  /** Where the code of one command is: what it waits for. */
  datatype Phase = Preparing | Reviewing | Waiting | Released | Refused | Started | Finished

  datatype Execution = Execution(phase: Phase, decision: Decision, expiresAt: nat)

  /** A command handed to the tools: the stored call and the time of the final check. */
  datatype Start = Start(slot: Slot, call: Call, decision: Decision, expiresAt: nat, time: nat)

  /** A human's approval as it was recorded. */
  datatype Grant = Grant(approval: Approval, call: Call, time: nat)

  datatype State = State(
    now: nat,
    runs: map<RunId, RunState>,
    registered: set<RunId>,
    aborted: map<RunId, Reason>,
    steps: map<RunId, nat>,
    workTargets: map<Terminal, RunId>,
    calls: map<Slot, Call>,
    approvals: map<Slot, Approval>,
    waiters: set<Slot>,
    executions: map<Slot, Execution>,
    // History: commands started, approvals given, runs ever canceled, calls whose hash was altered.
    started: seq<Start>,
    granted: seq<Grant>,
    canceled: set<RunId>,
    rehashed: set<Slot>)

  predicate RunOver(state: RunState) {
    state == Complete || state == Broken || state == Stopped
  }

  predicate CallOver(state: CallState) {
    state == Succeeded || state == Failed || state == Canceled
  }

  function CommandHash(call: Call, expiresAt: nat): Option<Fingerprint> {
    Some(Fingerprint(call.fields, expiresAt))
  }

  // ----- pieces shared by several steps -----

  function SetRun(s: State, run: RunId, state: RunState): State {
    s.(runs := s.runs[run := state], canceled := if state == Stopped then s.canceled + {run} else s.canceled)
  }

  /** Abort the controller of a run; every command waiting for approval is refused at once. */
  function Abort(s: State, run: RunId, reason: Reason): State {
    if run in s.aborted then s
    else
      s.(
        aborted := s.aborted[run := reason],
        waiters := (set slot | slot in s.waiters && slot.run != run),
        executions := (map slot | slot in s.executions ::
          if slot.run == run && slot in s.waiters
          then s.executions[slot].(phase := Refused) else s.executions[slot]))
  }

  /** Abort through the table of controllers, which a finished run has left. */
  function AbortRegistered(s: State, run: RunId, reason: Reason): State {
    if run in s.registered then Abort(s, run, reason) else s
  }

  /** The state a failure leads to: an aborted run is canceled, unless it ran out of time. */
  predicate EndsCanceled(s: State, run: RunId) {
    run in s.aborted && s.aborted[run] != TimeLimit
  }

  function FailRun(s: State, run: RunId): State {
    if run in s.runs && (s.runs[run] == Broken || s.runs[run] == Stopped) then s
    else SetRun(s, run, if EndsCanceled(s, run) then Stopped else Broken)
  }

  function SetPhase(s: State, slot: Slot, phase: Phase): State
    requires slot in s.executions
  {
    s.(executions := s.executions[slot := s.executions[slot].(phase := phase)])
  }

  /** The catch and finally blocks of a command. */
  function Fail(s: State, slot: Slot): State
    requires slot in s.executions
  {
    var stored :=
      if slot in s.calls && !CallOver(s.calls[slot].state)
      then s.(calls := s.calls[slot :=
        s.calls[slot].(state := if EndsCanceled(s, slot.run) then Canceled else Failed)])
      else s;
    SetPhase(FailRun(stored, slot.run), slot, Finished)
  }

  // ----- the steps of a command -----

  /** Take a step of the budget. */
  function Begin(s: State, run: RunId): State {
    if run !in s.registered || run !in s.steps then s
    else if run in s.aborted then FailRun(s, run)
    else
      var step := s.steps[run] + 1;
      var counted := s.(steps := s.steps[run := step]);
      if step > MAX_STEPS then FailRun(counted, run)
      else counted.(executions := s.executions[Slot(run, step) := Execution(Preparing, AskUser, 0)])
  }

  predicate InPhase(s: State, slot: Slot, phase: Phase) {
    slot in s.executions && s.executions[slot].phase == phase
  }

  /** Secrets and target are known: record the call, with a review still pending. */
  function Propose(s: State, slot: Slot, command: string, target: Terminal, generation: nat, ok: bool): State {
    if !InPhase(s, slot, Preparing) then s
    else if !ok then Fail(s, slot)
    else
      var review := Review(AskUser, generation, s.now + AUTOMATIC_LIFETIME);
      var call := Call(slot.run, Fields(command, target, 1, review, slot.step), None, Proposed, None);
      SetPhase(s.(calls := s.calls[slot := call]), slot, Reviewing)
  }

  /** The stored call with its review and the hash that binds it. */
  function Bind(call: Call, review: Review, risk: nat, step: nat): Call {
    var reviewed := call.(fields := call.fields.(review := review, risk := risk, step := step));
    reviewed.(argsHash := CommandHash(reviewed, review.expiresAt))
  }

  function Expiry(now: nat, decision: Decision): nat {
    now + if decision == AskUser then APPROVAL_LIFETIME else AUTOMATIC_LIFETIME
  }

  /** The review is back: bind the call, then refuse it, ask a human, or go on. */
  function Judge(s: State, slot: Slot, decision: Decision, risk: nat, generation: nat, ok: bool): State {
    if !InPhase(s, slot, Reviewing) || slot !in s.calls then s
    else if !ok || slot.run in s.aborted then Fail(s, slot)
    else
      var expiresAt := Expiry(s.now, decision);
      var call := Bind(s.calls[slot], Review(decision, generation, expiresAt), risk, slot.step);
      var bound := s.(
        calls := s.calls[slot := call],
        executions := s.executions[slot := Execution(Reviewing, decision, expiresAt)]);
      match decision
      case Reject => Fail(bound, slot)
      case AskUser => AskHuman(bound, slot)
      case AutoApprove => Launch(bound, slot, generation)
  }

  function AskHuman(s: State, slot: Slot): State
    requires slot in s.executions && slot in s.calls
  {
    var call := s.calls[slot];
    var approval := Approval(
      call.runId, slot, call.argsHash, call.fields.target, s.executions[slot].expiresAt, Pending);
    SetPhase(
      SetRun(
        s.(
          approvals := s.approvals[slot := approval],
          calls := s.calls[slot := call.(state := AwaitingApproval)],
          waiters := s.waiters + {slot}),
        call.runId, OnHold),
      slot, Waiting)
  }

  /** The final check, on the call as it is stored now. */
  predicate StillBound(s: State, slot: Slot, generation: nat)
    requires slot in s.executions && slot in s.calls
  {
    var call, execution := s.calls[slot], s.executions[slot];
    && call.argsHash == CommandHash(call, execution.expiresAt)
    && call.source.None?
    && call.state == (if execution.decision == AutoApprove then Proposed else AwaitingApproval)
    && call.fields.review.generation == generation
    && s.now < execution.expiresAt
  }

  function Launch(s: State, slot: Slot, generation: nat): State
    requires slot in s.executions && slot in s.calls
  {
    if slot.run in s.aborted || !StillBound(s, slot, generation) then Fail(s, slot)
    else
      var execution := s.executions[slot];
      var source := if execution.decision == AutoApprove then Automatic else User;
      var call := s.calls[slot].(source := Some(source), state := Executing);
      SetPhase(
        SetRun(
          s.(
            calls := s.calls[slot := call],
            started := s.started + [Start(slot, s.calls[slot], execution.decision, execution.expiresAt, s.now)]),
          slot.run, Active),
        slot, Started)
  }

  /** The promise of the approval has been settled. */
  function Resume(s: State, slot: Slot, generation: nat): State {
    if InPhase(s, slot, Refused) then Fail(s, slot)
    else if InPhase(s, slot, Released) && slot in s.calls then Launch(s, slot, generation)
    else s
  }

  function Conclude(s: State, slot: Slot, exitedWell: bool, threw: bool): State {
    if !InPhase(s, slot, Started) || slot !in s.calls then s
    else if threw || slot.run in s.aborted then Fail(s, slot)
    else
      var call := s.calls[slot].(state := if exitedWell then Succeeded else Failed);
      SetPhase(s.(calls := s.calls[slot := call]), slot, Finished)
  }

  // ----- what humans and timers do -----

  function SetVerdict(s: State, id: Slot, verdict: Verdict): State
    requires id in s.approvals
  {
    s.(approvals := s.approvals[id := s.approvals[id].(verdict := verdict)])
  }

  /** Reject the pending approvals of a run and cancel its calls that are not over. */
  function CloseRows(s: State, run: RunId): State {
    s.(
      approvals := (map id | id in s.approvals ::
        if s.approvals[id].runId == run && s.approvals[id].verdict == Pending
        then s.approvals[id].(verdict := Rejected) else s.approvals[id]),
      calls := (map slot | slot in s.calls ::
        if s.calls[slot].runId == run && !CallOver(s.calls[slot].state)
        then s.calls[slot].(state := Canceled) else s.calls[slot]))
  }

  /** Cancel a run: abort first, then close its rows. */
  function Cancel(s: State, run: RunId): State {
    var stopped := AbortRegistered(s, run, Requested);
    if run !in stopped.runs || RunOver(stopped.runs[run]) then stopped
    else SetRun(CloseRows(stopped, run), run, Stopped)
  }

  /** Nothing about the call has changed since the approval was asked for. */
  predicate Matches(s: State, approval: Approval) {
    approval.callId in s.calls &&
    var call := s.calls[approval.callId];
    && call.runId == approval.runId && call.fields.target == approval.target
    && call.argsHash == approval.argsHash && call.state == AwaitingApproval
    && approval.runId in s.runs && s.runs[approval.runId] == OnHold
  }

  function ExpireDecided(s: State, id: Slot): State
    requires id in s.approvals && s.approvals[id].callId in s.calls
  {
    var callId := s.approvals[id].callId;
    var run := s.calls[callId].runId;
    var aborted := AbortRegistered(SetVerdict(s, id, Expired), run, ApprovalExpired);
    SetRun(aborted.(calls := aborted.calls[callId := aborted.calls[callId].(state := Canceled)]), run, Stopped)
  }

  /** A human decides; anything that no longer matches leaves the state alone. */
  function Decide(s: State, id: Slot, approve: bool, argsHash: Option<Fingerprint>, generation: nat): State {
    if id !in s.approvals then s
    else
      var approval := s.approvals[id];
      if approval.verdict != Pending || approval.argsHash != argsHash || !Matches(s, approval) then s
      else
        var call := s.calls[approval.callId];
        if approval.expiresAt <= s.now then ExpireDecided(s, id)
        else if CommandHash(call, approval.expiresAt) != approval.argsHash
          || call.fields.review.generation != generation || approval.callId !in s.waiters then s
        else if !approve then Cancel(s, call.runId)
        else Release(s, id)
  }

  function Release(s: State, id: Slot): State
    requires id in s.approvals && s.approvals[id].callId in s.calls
  {
    var callId := s.approvals[id].callId;
    var settled := s.(
      waiters := s.waiters - {callId},
      granted := s.granted + [Grant(s.approvals[id], s.calls[callId], s.now)],
      executions := (map slot | slot in s.executions ::
        if slot == callId then s.executions[slot].(phase := Released) else s.executions[slot]));
    SetVerdict(settled, id, Approved)
  }

  /** One pending, expired entry met while the approvals are listed. */
  function Sweep(s: State, id: Slot): State {
    if id !in s.approvals || s.approvals[id].verdict != Pending || s.now < s.approvals[id].expiresAt
      || s.approvals[id].callId !in s.calls then s
    else
      var callId := s.approvals[id].callId;
      var run := s.calls[callId].runId;
      var aborted := AbortRegistered(SetVerdict(s, id, Expired), run, ApprovalExpired);
      var closed :=
        if CallOver(aborted.calls[callId].state) then aborted
        else aborted.(calls := aborted.calls[callId := aborted.calls[callId].(state := Canceled)]);
      if run in closed.runs && !RunOver(closed.runs[run]) then SetRun(closed, run, Stopped) else closed
  }

  /** The timer of a waiting command. */
  function ExpiryTimer(s: State, slot: Slot): State {
    if !InPhase(s, slot, Waiting) || s.now < s.executions[slot].expiresAt || slot !in s.approvals then s
    else Abort(SetVerdict(s, slot, Expired), slot.run, ApprovalExpired)
  }

  // ----- runs -----

  /** A work run is admitted if its terminal is free and fewer than four are busy. */
  function Admit(s: State, run: RunId, terminal: Terminal): State {
    if run in s.runs || terminal in s.workTargets || |s.workTargets| >= 4 then s
    else
      s.(
        runs := s.runs[run := Active], registered := s.registered + {run}, steps := s.steps[run := 0],
        workTargets := s.workTargets[terminal := run])
  }

  predicate Live(execution: Execution) {
    execution.phase != Finished
  }

  predicate Idle(s: State, run: RunId) {
    forall slot :: slot in s.executions && slot.run == run ==> !Live(s.executions[slot])
  }

  /** The model stream is over: its commands have returned, or the run was aborted. */
  function EndRun(s: State, run: RunId, well: bool): State {
    if run !in s.registered || run !in s.runs || !(run in s.aborted || Idle(s, run)) then s
    else
      var ended :=
        if well then SetRun(s, run, Complete)
        else if RunOver(s.runs[run]) then s
        else SetRun(s, run, if EndsCanceled(s, run) then Stopped else Broken);
      ended.(
        registered := s.registered - {run},
        workTargets := (map t | t in s.workTargets && s.workTargets[t] != run :: s.workTargets[t]))
  }

  // ----- every step -----

  datatype Step =
    | Tick(elapsed: nat)
    | AdmitRun(run: RunId, terminal: Terminal)
    | BeginCommand(run: RunId)
    | ProposeCommand(slot: Slot, command: string, target: Terminal, ok: bool)
    | JudgeCommand(slot: Slot, decision: Decision, risk: nat, ok: bool)
    | ResumeCommand(slot: Slot)
    | ConcludeCommand(slot: Slot, exitedWell: bool, threw: bool)
    | DecideApproval(id: Slot, approve: bool, argsHash: Option<Fingerprint>)
    | SweepApproval(id: Slot)
    | FireExpiry(slot: Slot)
    | CancelRun(run: RunId)
    | AbortRun(run: RunId, reason: Reason)
    | FinishRun(run: RunId, well: bool)
    // The stored rows are altered behind the service's back.
    | AlterCall(slot: Slot, fields: Fields, argsHash: Option<Fingerprint>, state: CallState, source: Option<Source>)
    | AlterApproval(id: Slot, approval: Approval)

  /** A stored call is altered, but not the run it belongs to. */
  function AlterStored(
    s: State, slot: Slot, fields: Fields, argsHash: Option<Fingerprint>, state: CallState, source: Option<Source>
  ): State {
    if slot !in s.calls then s
    else
      s.(
        calls := s.calls[slot := Call(s.calls[slot].runId, fields, argsHash, state, source)],
        rehashed := if argsHash == s.calls[slot].argsHash then s.rehashed else s.rehashed + {slot})
  }

  function Next(s: State, step: Step, generation: nat): State {
    match step
    case Tick(elapsed) => s.(now := s.now + elapsed)
    case AdmitRun(run, terminal) => Admit(s, run, terminal)
    case BeginCommand(run) => Begin(s, run)
    case ProposeCommand(slot, command, target, ok) => Propose(s, slot, command, target, generation, ok)
    case JudgeCommand(slot, decision, risk, ok) => Judge(s, slot, decision, risk, generation, ok)
    case ResumeCommand(slot) => Resume(s, slot, generation)
    case ConcludeCommand(slot, exitedWell, threw) => Conclude(s, slot, exitedWell, threw)
    case DecideApproval(id, approve, argsHash) => Decide(s, id, approve, argsHash, generation)
    case SweepApproval(id) => Sweep(s, id)
    case FireExpiry(slot) => ExpiryTimer(s, slot)
    case CancelRun(run) => Cancel(s, run)
    case AbortRun(run, reason) => AbortRegistered(s, run, reason)
    case FinishRun(run, well) => EndRun(s, run, well)
    case AlterCall(slot, fields, argsHash, state, source) => AlterStored(s, slot, fields, argsHash, state, source)
    case AlterApproval(id, approval) =>
      if id !in s.approvals then s else s.(approvals := s.approvals[id := approval])
  }

  function Initial(): State {
    State(0, map[], {}, map[], map[], map[], map[], map[], {}, map[], [], [], {}, {})
  }

  function After(trace: seq<Step>, generation: nat): State {
    if trace == [] then Initial() else Next(After(trace[..|trace| - 1], generation), trace[|trace| - 1], generation)
  }

  // ----- what holds in every reachable state -----

  /** Numbers of steps and runs behind every command. */
  ghost predicate Counted(s: State) {
    && (forall slot :: slot in s.executions ==>
          && 1 <= slot.step <= MAX_STEPS && slot.run in s.runs
          && slot.run in s.steps && slot.step <= s.steps[slot.run])
    && (forall slot :: slot in s.calls ==> slot in s.executions && s.calls[slot].runId == slot.run)
    && (forall run :: run in s.registered ==> run in s.runs && run in s.steps)
    && s.canceled <= s.runs.Keys
  }

  /** Who waits: exactly the commands whose promise is open, none of them in an aborted run. */
  ghost predicate WaitersKnown(s: State) {
    && (forall slot :: slot in s.waiters <==> InPhase(s, slot, Waiting))
    && (forall slot :: slot in s.waiters ==> slot.run !in s.aborted)
    && (forall slot :: slot in s.executions && s.executions[slot].phase in {Waiting, Released} ==>
          s.executions[slot].decision == AskUser)
  }

  /** A run that was canceled, or is over, can start nothing any more. */
  ghost predicate CanceledAborted(s: State) {
    && (forall run :: run in s.canceled && run in s.registered ==> run in s.aborted)
    && (forall slot :: slot in s.executions && Live(s.executions[slot]) && slot.run !in s.registered ==>
          slot.run in s.aborted)
  }

  /** A recorded approval fits the call it was given for, and was given in time. */
  predicate GoodGrant(grant: Grant, generation: nat) {
    && grant.approval.verdict == Pending
    && grant.time < grant.approval.expiresAt
    && grant.approval.argsHash == grant.call.argsHash
    && grant.call.argsHash == CommandHash(grant.call, grant.approval.expiresAt)
    && grant.call.fields.review.generation == generation
  }

  /** Every call is approved at most once, and only while its code was waiting. */
  ghost predicate GrantsOnce(s: State, generation: nat) {
    && (forall k :: 0 <= k < |s.granted| ==> GoodGrant(s.granted[k], generation))
    && (forall j, k :: 0 <= j < k < |s.granted| ==>
          s.granted[j].approval.callId != s.granted[k].approval.callId)
    && (forall k :: 0 <= k < |s.granted| ==> Decided(s, s.granted[k].approval.callId))
    && (forall slot :: InPhase(s, slot, Released) ==> GrantedTo(s, slot))
  }

  predicate Decided(s: State, slot: Slot) {
    slot in s.executions && s.executions[slot].phase in {Released, Started, Finished}
  }

  ghost predicate GrantedTo(s: State, slot: Slot) {
    exists k :: 0 <= k < |s.granted| && s.granted[k].approval.callId == slot
  }

  /** What the final check established for a started command. */
  predicate GoodStart(start: Start, generation: nat) {
    && start.call.argsHash == CommandHash(start.call, start.expiresAt)
    && start.call.source.None?
    && start.call.fields.review.generation == generation
    && start.time < start.expiresAt
    && start.decision != Reject
  }

  /** Every command starts at most once, checked, and approved if a human had to be asked. */
  ghost predicate StartsOnce(s: State, generation: nat) {
    && (forall k :: 0 <= k < |s.started| ==> GoodStart(s.started[k], generation))
    && (forall j, k :: 0 <= j < k < |s.started| ==> s.started[j].slot != s.started[k].slot)
    && (forall k :: 0 <= k < |s.started| ==> Launched(s, s.started[k].slot))
    && (forall k :: 0 <= k < |s.started| && s.started[k].decision == AskUser ==> GrantedTo(s, s.started[k].slot))
  }

  predicate Launched(s: State, slot: Slot) {
    slot in s.executions && s.executions[slot].phase in {Started, Finished}
  }

  ghost predicate Inv(s: State, generation: nat) {
    Counted(s) && WaitersKnown(s) && CanceledAborted(s) && GrantsOnce(s, generation) && StartsOnce(s, generation)
  }

  /** Commands only move forward: what was approved or started stays so. */
  ghost predicate Moves(s: State, t: State) {
    && t.started == s.started && t.granted == s.granted
    && (forall slot :: slot in s.executions ==> slot in t.executions)
    && (forall slot :: Decided(s, slot) ==> Decided(t, slot))
    && (forall slot :: Launched(s, slot) ==> Launched(t, slot))
    && (forall slot :: InPhase(t, slot, Released) ==> InPhase(s, slot, Released))
  }

  lemma HistoryKeeps(s: State, t: State, generation: nat)
    requires GrantsOnce(s, generation) && StartsOnce(s, generation) && Moves(s, t)
    ensures GrantsOnce(t, generation) && StartsOnce(t, generation)
  {
    hide GoodGrant, GoodStart, Decided, Launched, InPhase;
    forall slot | GrantedTo(s, slot) ensures GrantedTo(t, slot) {
    }
  }

  lemma AbortMoves(s: State, run: RunId, reason: Reason)
    requires WaitersKnown(s)
    ensures Moves(s, Abort(s, run, reason))
  {
  }

  lemma AbortKeeps(s: State, run: RunId, reason: Reason, generation: nat)
    requires Inv(s, generation)
    ensures Inv(Abort(s, run, reason), generation)
  {
    hide GrantsOnce, StartsOnce, Moves;
    AbortMoves(s, run, reason);
    HistoryKeeps(s, Abort(s, run, reason), generation);
  }

  lemma SetRunKeeps(s: State, run: RunId, state: RunState, generation: nat)
    requires Inv(s, generation)
    requires state == Stopped && run in s.registered ==> run in s.aborted
    ensures Inv(SetRun(s, run, state), generation)
  {
    hide GrantsOnce, StartsOnce;
    HistoryKeeps(s, SetRun(s, run, state), generation);
  }

  /** Rewriting stored calls or approvals does not touch the invariant; calls keep their run. */
  lemma StoreKeeps(s: State, t: State, generation: nat)
    requires Inv(s, generation)
    requires t == s.(calls := t.calls, approvals := t.approvals, rehashed := t.rehashed, now := t.now)
    requires t.calls.Keys == s.calls.Keys
    requires forall slot :: slot in s.calls ==> t.calls[slot].runId == s.calls[slot].runId
    ensures Inv(t, generation)
  {
    hide GrantsOnce, StartsOnce;
    HistoryKeeps(s, t, generation);
  }

  lemma FailRunKeeps(s: State, run: RunId, generation: nat)
    requires Inv(s, generation)
    ensures Inv(FailRun(s, run), generation)
  {
    if !(run in s.runs && (s.runs[run] == Broken || s.runs[run] == Stopped)) {
      SetRunKeeps(s, run, if EndsCanceled(s, run) then Stopped else Broken, generation);
    }
  }

  lemma FinishKeeps(s: State, slot: Slot, generation: nat)
    requires Inv(s, generation) && slot in s.executions && s.executions[slot].phase != Waiting
    ensures Inv(SetPhase(s, slot, Finished), generation)
  {
    hide GrantsOnce, StartsOnce;
    HistoryKeeps(s, SetPhase(s, slot, Finished), generation);
  }

  lemma FailKeeps(s: State, slot: Slot, generation: nat)
    requires Inv(s, generation) && slot in s.executions && s.executions[slot].phase != Waiting
    ensures Inv(Fail(s, slot), generation)
  {
    hide Inv, SetRun;
    var stored :=
      if slot in s.calls && !CallOver(s.calls[slot].state)
      then s.(calls := s.calls[slot :=
        s.calls[slot].(state := if EndsCanceled(s, slot.run) then Canceled else Failed)])
      else s;
    StoreKeeps(s, stored, generation);
    FailRunKeeps(stored, slot.run, generation);
    FailRunExecutions(stored, slot.run);
    FinishKeeps(FailRun(stored, slot.run), slot, generation);
  }

  lemma FailRunExecutions(s: State, run: RunId)
    ensures FailRun(s, run).executions == s.executions && FailRun(s, run).calls == s.calls
    ensures var t := FailRun(s, run);
            && t.started == s.started && t.granted == s.granted && t.rehashed == s.rehashed
            && t.approvals == s.approvals
  {
  }

  lemma CountStepKeeps(s: State, run: RunId, step: nat, generation: nat)
    requires Inv(s, generation) && run in s.registered && s.steps[run] <= step
    ensures Inv(s.(steps := s.steps[run := step]), generation)
  {
    hide GrantsOnce, StartsOnce, WaitersKnown, CanceledAborted;
    var t := s.(steps := s.steps[run := step]);
    HistoryKeeps(s, t, generation);
    assert WaitersKnown(t) && CanceledAborted(t) by { SameWaiters(s, t); }
  }

  lemma SameWaiters(s: State, t: State)
    requires t.executions == s.executions && t.waiters == s.waiters && t.aborted == s.aborted
    requires t.registered == s.registered && t.canceled == s.canceled
    requires WaitersKnown(s) && CanceledAborted(s)
    ensures WaitersKnown(t) && CanceledAborted(t)
  {
  }

  lemma NewCommandKeeps(s: State, slot: Slot, generation: nat)
    requires Inv(s, generation) && slot !in s.executions && slot.run in s.registered
    requires 1 <= slot.step <= MAX_STEPS && slot.step <= s.steps[slot.run]
    ensures Inv(s.(executions := s.executions[slot := Execution(Preparing, AskUser, 0)]), generation)
  {
    hide GrantsOnce, StartsOnce;
    HistoryKeeps(s, s.(executions := s.executions[slot := Execution(Preparing, AskUser, 0)]), generation);
  }

  lemma BeginKeeps(s: State, run: RunId, generation: nat)
    requires Inv(s, generation)
    ensures Inv(Begin(s, run), generation)
  {
    hide GrantsOnce, StartsOnce, WaitersKnown, CanceledAborted, FailRun;
    if run in s.registered && run in s.steps {
      FailRunKeeps(s, run, generation);
      var step := s.steps[run] + 1;
      var counted := s.(steps := s.steps[run := step]);
      CountStepKeeps(s, run, step, generation);
      FailRunKeeps(counted, run, generation);
      if step <= MAX_STEPS {
        assert Slot(run, step) !in s.executions;
        NewCommandKeeps(counted, Slot(run, step), generation);
      }
    }
  }

  lemma NewCallKeeps(s: State, slot: Slot, call: Call, generation: nat)
    requires Inv(s, generation) && slot in s.executions && call.runId == slot.run
    ensures Inv(s.(calls := s.calls[slot := call]), generation)
  {
    hide GrantsOnce, StartsOnce, WaitersKnown, CanceledAborted;
    var t := s.(calls := s.calls[slot := call]);
    HistoryKeeps(s, t, generation);
    SameWaiters(s, t);
  }

  lemma ReviewBegins(s: State, slot: Slot, generation: nat)
    requires Inv(s, generation) && InPhase(s, slot, Preparing)
    ensures Inv(SetPhase(s, slot, Reviewing), generation)
  {
    hide GrantsOnce, StartsOnce;
    HistoryKeeps(s, SetPhase(s, slot, Reviewing), generation);
  }

  lemma ProposeKeeps(
    s: State, slot: Slot, command: string, target: Terminal, generation: nat, ok: bool)
    requires Inv(s, generation)
    ensures Inv(Propose(s, slot, command, target, generation, ok), generation)
  {
    hide Inv, Fail, SetPhase;
    if InPhase(s, slot, Preparing) {
      if !ok {
        FailKeeps(s, slot, generation);
      } else {
        var review := Review(AskUser, generation, s.now + AUTOMATIC_LIFETIME);
        var call := Call(slot.run, Fields(command, target, 1, review, slot.step), None, Proposed, None);
        NewCallKeeps(s, slot, call, generation);
        ReviewBegins(s.(calls := s.calls[slot := call]), slot, generation);
      }
    }
  }

  lemma WaitKeeps(s: State, slot: Slot, generation: nat)
    requires Inv(s, generation) && InPhase(s, slot, Reviewing)
    requires slot.run !in s.aborted && s.executions[slot].decision == AskUser
    ensures Inv(SetPhase(s.(waiters := s.waiters + {slot}), slot, Waiting), generation)
  {
    hide GrantsOnce, StartsOnce;
    HistoryKeeps(s, SetPhase(s.(waiters := s.waiters + {slot}), slot, Waiting), generation);
  }

  lemma AskHumanKeeps(s: State, slot: Slot, generation: nat)
    requires Inv(s, generation) && InPhase(s, slot, Reviewing) && slot in s.calls
    requires slot.run !in s.aborted && s.executions[slot].decision == AskUser
    ensures Inv(AskHuman(s, slot), generation)
  {
    hide Inv;
    var call := s.calls[slot];
    var approval := Approval(
      call.runId, slot, call.argsHash, call.fields.target, s.executions[slot].expiresAt, Pending);
    var stored := s.(
      approvals := s.approvals[slot := approval], calls := s.calls[slot := call.(state := AwaitingApproval)]);
    StoreKeeps(s, stored, generation);
    SetRunKeeps(stored, call.runId, OnHold, generation);
    WaitKeeps(SetRun(stored, call.runId, OnHold), slot, generation);
  }

  lemma LaunchKeeps(s: State, slot: Slot, generation: nat)
    requires Inv(s, generation) && slot in s.executions && slot in s.calls
    requires s.executions[slot].phase in {Reviewing, Released} && s.executions[slot].decision != Reject
    requires s.executions[slot].phase == Reviewing ==> s.executions[slot].decision == AutoApprove
    ensures Inv(Launch(s, slot, generation), generation)
  {
    if slot.run in s.aborted || !StillBound(s, slot, generation) {
      FailKeeps(s, slot, generation);
    } else {
      var execution := s.executions[slot];
      var source := if execution.decision == AutoApprove then Automatic else User;
      var stored := s.(calls := s.calls[slot := s.calls[slot].(source := Some(source), state := Executing)]);
      StoreKeeps(s, stored, generation);
      SetRunKeeps(stored, slot.run, Active, generation);
      StartKeeps(
        SetRun(stored, slot.run, Active), slot,
        Start(slot, s.calls[slot], execution.decision, execution.expiresAt, s.now), generation);
    }
  }

  lemma StartKeeps(s: State, slot: Slot, start: Start, generation: nat)
    requires Inv(s, generation) && slot in s.executions && start.slot == slot && GoodStart(start, generation)
    requires s.executions[slot].phase in {Reviewing, Released}
    requires start.decision == s.executions[slot].decision
    requires s.executions[slot].phase == Reviewing ==> start.decision == AutoApprove
    ensures Inv(SetPhase(s.(started := s.started + [start]), slot, Started), generation)
  {
    var moved := SetPhase(s, slot, Started);
    PhaseStarted(s, slot, generation);
    assert !Launched(s, slot);
    assert InPhase(s, slot, Released) ==> GrantedTo(s, slot);
    hide GoodGrant, GoodStart, Counted, WaitersKnown, CanceledAborted, GrantsOnce;
    StartRecorded(s, moved, slot, start, generation);
    GrantsFrame(moved, moved.(started := s.started + [start]), generation);
    RestKept(moved, moved.(started := s.started + [start]));
  }

  lemma RestKept(s: State, t: State)
    requires Counted(s) && WaitersKnown(s) && CanceledAborted(s) && t == s.(started := t.started)
    ensures Counted(t) && WaitersKnown(t) && CanceledAborted(t)
  {
  }

  lemma PhaseStarted(s: State, slot: Slot, generation: nat)
    requires Inv(s, generation) && slot in s.executions && s.executions[slot].phase in {Reviewing, Released}
    ensures Inv(SetPhase(s, slot, Started), generation)
  {
    hide GrantsOnce, StartsOnce;
    HistoryKeeps(s, SetPhase(s, slot, Started), generation);
  }

  /** One more start, of a command that had not started. */
  lemma StartRecorded(s: State, moved: State, slot: Slot, start: Start, generation: nat)
    requires StartsOnce(s, generation) && StartsOnce(moved, generation) && start.slot == slot
    requires GoodStart(start, generation) && !Launched(s, slot) && Launched(moved, slot)
    requires moved.started == s.started && moved.granted == s.granted
    requires start.decision == AskUser ==> GrantedTo(s, slot)
    ensures StartsOnce(moved.(started := s.started + [start]), generation)
  {
    var t := moved.(started := s.started + [start]);
    hide GoodStart;
    forall k | 0 <= k < |t.started|
      ensures GoodStart(t.started[k], generation) && Launched(t, t.started[k].slot)
      ensures t.started[k].decision == AskUser ==> GrantedTo(t, t.started[k].slot)
      ensures k < |s.started| ==> t.started[k].slot != slot
    {
      if k < |s.started| {
        assert Launched(s, s.started[k].slot) && Launched(moved, s.started[k].slot);
        assert s.started[k].decision == AskUser ==> GrantedTo(moved, s.started[k].slot);
        assert GrantedTo(moved, s.started[k].slot) ==> GrantedTo(t, s.started[k].slot);
      } else {
        assert GrantedTo(s, slot) ==> GrantedTo(t, slot);
      }
    }
  }

  lemma GrantsFrame(s: State, t: State, generation: nat)
    requires GrantsOnce(s, generation) && t.granted == s.granted && t.executions == s.executions
    ensures GrantsOnce(t, generation)
  {
    forall slot | InPhase(t, slot, Released) ensures GrantedTo(t, slot) {
      assert InPhase(s, slot, Released) && GrantedTo(s, slot);
    }
  }

  lemma ReviewedKeeps(s: State, slot: Slot, decision: Decision, expiresAt: nat, generation: nat)
    requires Inv(s, generation) && InPhase(s, slot, Reviewing)
    ensures Inv(s.(executions := s.executions[slot := Execution(Reviewing, decision, expiresAt)]), generation)
  {
    hide GrantsOnce, StartsOnce;
    HistoryKeeps(s, s.(executions := s.executions[slot := Execution(Reviewing, decision, expiresAt)]), generation);
  }

  lemma JudgeKeeps(s: State, slot: Slot, decision: Decision, risk: nat, generation: nat, ok: bool)
    requires Inv(s, generation)
    ensures Inv(Judge(s, slot, decision, risk, generation, ok), generation)
  {
    hide Inv, Fail, AskHuman, Launch, CommandHash;
    if InPhase(s, slot, Reviewing) && slot in s.calls {
      if !ok || slot.run in s.aborted {
        FailKeeps(s, slot, generation);
      } else {
        var expiresAt := Expiry(s.now, decision);
        var call := Bind(s.calls[slot], Review(decision, generation, expiresAt), risk, slot.step);
        var stored := s.(calls := s.calls[slot := call]);
        StoreKeeps(s, stored, generation);
        var bound := stored.(executions := s.executions[slot := Execution(Reviewing, decision, expiresAt)]);
        ReviewedKeeps(stored, slot, decision, expiresAt, generation);
        match decision {
          case Reject => FailKeeps(bound, slot, generation);
          case AskUser => AskHumanKeeps(bound, slot, generation);
          case AutoApprove => LaunchKeeps(bound, slot, generation);
        }
      }
    }
  }

  lemma ResumeKeeps(s: State, slot: Slot, generation: nat)
    requires Inv(s, generation)
    ensures Inv(Resume(s, slot, generation), generation)
  {
    if InPhase(s, slot, Refused) {
      FailKeeps(s, slot, generation);
    } else if InPhase(s, slot, Released) && slot in s.calls {
      LaunchKeeps(s, slot, generation);
    }
  }

  lemma ConcludeKeeps(s: State, slot: Slot, exitedWell: bool, threw: bool, generation: nat)
    requires Inv(s, generation)
    ensures Inv(Conclude(s, slot, exitedWell, threw), generation)
  {
    hide GrantsOnce, StartsOnce, Fail;
    if InPhase(s, slot, Started) && slot in s.calls {
      if threw || slot.run in s.aborted {
        FailKeeps(s, slot, generation);
      } else {
        var call := s.calls[slot].(state := if exitedWell then Succeeded else Failed);
        StoreKeeps(s, s.(calls := s.calls[slot := call]), generation);
        FinishKeeps(s.(calls := s.calls[slot := call]), slot, generation);
      }
    }
  }

  lemma AbortRegisteredKeeps(s: State, run: RunId, reason: Reason, generation: nat)
    requires Inv(s, generation)
    ensures Inv(AbortRegistered(s, run, reason), generation)
    ensures run in AbortRegistered(s, run, reason).registered ==> run in AbortRegistered(s, run, reason).aborted
    ensures var t := AbortRegistered(s, run, reason);
            t.calls == s.calls && t.approvals == s.approvals && t.runs == s.runs && t.registered == s.registered
  {
    if run in s.registered {
      AbortKeeps(s, run, reason, generation);
    }
  }

  lemma CloseRowsKeeps(s: State, run: RunId, generation: nat)
    requires Inv(s, generation)
    ensures Inv(CloseRows(s, run), generation)
    ensures CloseRows(s, run).registered == s.registered && CloseRows(s, run).aborted == s.aborted
  {
    hide Inv, CallOver;
    StoreKeeps(s, CloseRows(s, run), generation);
  }

  lemma CancelKeeps(s: State, run: RunId, generation: nat)
    requires Inv(s, generation)
    ensures Inv(Cancel(s, run), generation)
  {
    hide Inv, AbortRegistered, CloseRows;
    AbortRegisteredKeeps(s, run, Requested, generation);
    var stopped := AbortRegistered(s, run, Requested);
    CloseRowsKeeps(stopped, run, generation);
    SetRunKeeps(CloseRows(stopped, run), run, Stopped, generation);
  }

  lemma ExpireDecidedKeeps(s: State, id: Slot, generation: nat)
    requires Inv(s, generation) && id in s.approvals && s.approvals[id].callId in s.calls
    ensures Inv(ExpireDecided(s, id), generation)
  {
    hide Inv, AbortRegistered;
    var callId := s.approvals[id].callId;
    var run := s.calls[callId].runId;
    StoreKeeps(s, SetVerdict(s, id, Expired), generation);
    AbortRegisteredKeeps(SetVerdict(s, id, Expired), run, ApprovalExpired, generation);
    var aborted := AbortRegistered(SetVerdict(s, id, Expired), run, ApprovalExpired);
    var t := aborted.(calls := aborted.calls[callId := aborted.calls[callId].(state := Canceled)]);
    StoreKeeps(aborted, t, generation);
    SetRunKeeps(t, run, Stopped, generation);
  }

  lemma SweepKeeps(s: State, id: Slot, generation: nat)
    requires Inv(s, generation)
    ensures Inv(Sweep(s, id), generation)
  {
    hide Inv, AbortRegistered;
    if !(id !in s.approvals || s.approvals[id].verdict != Pending || s.now < s.approvals[id].expiresAt
         || s.approvals[id].callId !in s.calls) {
      var callId := s.approvals[id].callId;
      var run := s.calls[callId].runId;
      StoreKeeps(s, SetVerdict(s, id, Expired), generation);
      AbortRegisteredKeeps(SetVerdict(s, id, Expired), run, ApprovalExpired, generation);
      var aborted := AbortRegistered(SetVerdict(s, id, Expired), run, ApprovalExpired);
      var closed :=
        if CallOver(aborted.calls[callId].state) then aborted
        else aborted.(calls := aborted.calls[callId := aborted.calls[callId].(state := Canceled)]);
      StoreKeeps(aborted, closed, generation);
      if run in closed.runs && !RunOver(closed.runs[run]) {
        SetRunKeeps(closed, run, Stopped, generation);
      }
    }
  }

  lemma ReleaseKeeps(s: State, id: Slot, generation: nat)
    requires Inv(s, generation) && id in s.approvals && s.approvals[id].callId in s.calls
    requires s.approvals[id].callId in s.waiters
    requires GoodGrant(Grant(s.approvals[id], s.calls[s.approvals[id].callId], s.now), generation)
    ensures Inv(Release(s, id), generation)
  {
    var callId := s.approvals[id].callId;
    var t := Release(s, id);
    assert t.granted[|s.granted|].approval.callId == callId;
    assert !Decided(s, callId);
    hide GoodGrant, GoodStart;
    forall slot | GrantedTo(s, slot) ensures GrantedTo(t, slot) {
      var k :| 0 <= k < |s.granted| && s.granted[k].approval.callId == slot;
      assert t.granted[k].approval.callId == slot;
    }
    forall k | 0 <= k < |s.granted|
      ensures Decided(t, s.granted[k].approval.callId) && s.granted[k].approval.callId != callId
    {
      assert Decided(s, s.granted[k].approval.callId);
    }
    forall k | 0 <= k < |s.started| ensures Launched(t, s.started[k].slot) {
      assert Launched(s, s.started[k].slot);
    }
    forall slot | InPhase(t, slot, Released) ensures GrantedTo(t, slot) {
      if slot != callId {
        assert InPhase(s, slot, Released) && GrantedTo(s, slot);
      }
    }
  }

  lemma DecideKeeps(s: State, id: Slot, approve: bool, argsHash: Option<Fingerprint>, generation: nat)
    requires Inv(s, generation)
    ensures Inv(Decide(s, id, approve, argsHash, generation), generation)
  {
    if id in s.approvals {
      var approval := s.approvals[id];
      if approval.verdict == Pending && approval.argsHash == argsHash && Matches(s, approval) {
        var call := s.calls[approval.callId];
        hide Inv;
        if approval.expiresAt <= s.now {
          ExpireDecidedKeeps(s, id, generation);
        } else if !(CommandHash(call, approval.expiresAt) != approval.argsHash
                    || call.fields.review.generation != generation || approval.callId !in s.waiters) {
          if approve {
            ReleaseKeeps(s, id, generation);
          } else {
            CancelKeeps(s, call.runId, generation);
          }
        }
      }
    }
  }

  lemma ExpiryTimerKeeps(s: State, slot: Slot, generation: nat)
    requires Inv(s, generation)
    ensures Inv(ExpiryTimer(s, slot), generation)
  {
    if InPhase(s, slot, Waiting) && s.now >= s.executions[slot].expiresAt && slot in s.approvals {
      StoreKeeps(s, SetVerdict(s, slot, Expired), generation);
      AbortKeeps(SetVerdict(s, slot, Expired), slot.run, ApprovalExpired, generation);
    }
  }

  lemma AdmitCounted(s: State, run: RunId, terminal: Terminal)
    requires Counted(s) && CanceledAborted(s)
    ensures Counted(Admit(s, run, terminal)) && CanceledAborted(Admit(s, run, terminal))
  {
  }

  lemma AdmitKeeps(s: State, run: RunId, terminal: Terminal, generation: nat)
    requires Inv(s, generation)
    ensures Inv(Admit(s, run, terminal), generation)
  {
    hide GrantsOnce, StartsOnce, Counted, CanceledAborted;
    AdmitCounted(s, run, terminal);
    HistoryKeeps(s, Admit(s, run, terminal), generation);
  }

  lemma UnregisterKeeps(s: State, run: RunId, targets: map<Terminal, RunId>, generation: nat)
    requires Inv(s, generation) && (run in s.aborted || Idle(s, run))
    ensures Inv(s.(registered := s.registered - {run}, workTargets := targets), generation)
  {
    hide GrantsOnce, StartsOnce;
    HistoryKeeps(s, s.(registered := s.registered - {run}, workTargets := targets), generation);
  }

  lemma EndRunKeeps(s: State, run: RunId, well: bool, generation: nat)
    requires Inv(s, generation)
    ensures Inv(EndRun(s, run, well), generation)
  {
    hide Inv;
    if !(run !in s.registered || run !in s.runs || !(run in s.aborted || Idle(s, run))) {
      var targets := map t | t in s.workTargets && s.workTargets[t] != run :: s.workTargets[t];
      UnregisterKeeps(s, run, targets, generation);
      if well {
        SetRunKeeps(s, run, Complete, generation);
        UnregisterKeeps(SetRun(s, run, Complete), run, targets, generation);
      } else if !RunOver(s.runs[run]) {
        var state := if EndsCanceled(s, run) then Stopped else Broken;
        SetRunKeeps(s, run, state, generation);
        UnregisterKeeps(SetRun(s, run, state), run, targets, generation);
      }
    }
  }

  lemma AlterKeeps(s: State, step: Step, generation: nat)
    requires Inv(s, generation) && (step.AlterCall? || step.AlterApproval?)
    ensures Inv(Next(s, step, generation), generation)
  {
    hide Inv;
    StoreKeeps(s, Next(s, step, generation), generation);
  }

  lemma NextKeeps(s: State, step: Step, generation: nat)
    requires Inv(s, generation)
    ensures Inv(Next(s, step, generation), generation)
  {
    hide Inv, Begin, Propose, Judge, Resume, Conclude, Decide, Sweep, ExpiryTimer, Cancel, AbortRegistered, EndRun,
      Admit;
    match step {
      case Tick(elapsed) => StoreKeeps(s, s.(now := s.now + elapsed), generation);
      case AdmitRun(run, terminal) => AdmitKeeps(s, run, terminal, generation);
      case BeginCommand(run) => BeginKeeps(s, run, generation);
      case ProposeCommand(slot, command, target, ok) => ProposeKeeps(s, slot, command, target, generation, ok);
      case JudgeCommand(slot, decision, risk, ok) => JudgeKeeps(s, slot, decision, risk, generation, ok);
      case ResumeCommand(slot) => ResumeKeeps(s, slot, generation);
      case ConcludeCommand(slot, exitedWell, threw) => ConcludeKeeps(s, slot, exitedWell, threw, generation);
      case DecideApproval(id, approve, argsHash) => DecideKeeps(s, id, approve, argsHash, generation);
      case SweepApproval(id) => SweepKeeps(s, id, generation);
      case FireExpiry(slot) => ExpiryTimerKeeps(s, slot, generation);
      case CancelRun(run) => CancelKeeps(s, run, generation);
      case AbortRun(run, reason) => AbortRegisteredKeeps(s, run, reason, generation);
      case FinishRun(run, well) => EndRunKeeps(s, run, well, generation);
      case AlterCall(_, _, _, _, _) => AlterKeeps(s, step, generation);
      case AlterApproval(_, _) => AlterKeeps(s, step, generation);
    }
  }

  /** Every state of every run satisfies the invariant. */
  lemma {:induction false} Reachable(trace: seq<Step>, generation: nat)
    ensures Inv(After(trace, generation), generation)
  {
    if trace != [] {
      Reachable(trace[..|trace| - 1], generation);
      NextKeeps(After(trace[..|trace| - 1], generation), trace[|trace| - 1], generation);
    }
  }

  // ----- safety over whole runs -----

  /**
   Whatever the interleaving, every started command passed its final check, no command starts twice, and a
   command for which a human had to be asked was approved, by one recorded decision given in time.
   */
  lemma CommandsStartChecked(trace: seq<Step>, generation: nat)
    ensures var s := After(trace, generation);
            && (forall k :: 0 <= k < |s.started| ==> GoodStart(s.started[k], generation))
            && (forall j, k :: 0 <= j < k < |s.started| ==> s.started[j].slot != s.started[k].slot)
            && (forall k :: 0 <= k < |s.started| && s.started[k].decision == AskUser ==>
                  exists j :: 0 <= j < |s.granted| && s.granted[j].approval.callId == s.started[k].slot
                              && GoodGrant(s.granted[j], generation))
            && (forall i, j :: 0 <= i < j < |s.granted| ==>
                  s.granted[i].approval.callId != s.granted[j].approval.callId)
  {
    Reachable(trace, generation);
    var s := After(trace, generation);
    hide GoodStart, GoodGrant, Launched, Decided, After;
    forall k | 0 <= k < |s.started| && s.started[k].decision == AskUser
      ensures exists j :: 0 <= j < |s.granted| && s.granted[j].approval.callId == s.started[k].slot
                          && GoodGrant(s.granted[j], generation)
    {
      assert GrantedTo(s, s.started[k].slot);
    }
  }

  /** A step starts at most one command, and only in a run that was never canceled or aborted. */
  lemma StartsOnlyUncanceled(trace: seq<Step>, step: Step, generation: nat)
    ensures var s, t := After(trace, generation), After(trace + [step], generation);
            t.started == s.started ||
            (|t.started| == |s.started| + 1 && s.started <= t.started &&
             var slot := t.started[|s.started|].slot;
             && slot.run !in s.canceled && slot.run !in s.aborted
             && (forall k :: 0 <= k < |s.started| ==> s.started[k].slot != slot))
  {
    Reachable(trace, generation);
    Reachable(trace + [step], generation);
    assert (trace + [step])[..|trace|] == trace;
    var s, t := After(trace, generation), After(trace + [step], generation);
    assert t == Next(s, step, generation);
    hide After, Next, GoodStart, GoodGrant, Counted, CanceledAborted, WaitersKnown, GrantsOnce;
    StepStarts(s, step, generation);
  }

  lemma StepStarts(s: State, step: Step, generation: nat)
    requires Inv(s, generation)
    ensures var t := Next(s, step, generation);
            t.started == s.started || exists slot :: StartsAtMost(s, t, slot)
  {
    hide Inv, Judge, Resume, Fail, Cancel, Decide, Sweep, Propose, Begin, EndRun, ExpiryTimer, Conclude;
    match step {
      case JudgeCommand(slot, decision, risk, ok) => JudgeStarts(s, slot, decision, risk, generation, ok);
      case ResumeCommand(slot) => ResumeStarts(s, slot, generation);
      case BeginCommand(run) => QuietBegin(s, run);
      case ProposeCommand(slot, command, target, ok) => QuietPropose(s, slot, command, target, generation, ok);
      case ConcludeCommand(slot, exitedWell, threw) => QuietConclude(s, slot, exitedWell, threw);
      case DecideApproval(id, approve, argsHash) => DecideStarts(s, id, approve, argsHash, generation);
      case SweepApproval(id) => QuietSweep(s, id);
      case FireExpiry(slot) => QuietExpiry(s, slot);
      case CancelRun(run) => QuietCancel(s, run);
      case FinishRun(run, well) => QuietEnd(s, run, well);
      case _ =>
    }
  }

  /** Between two states at most the command of slot has started, in a run that is not aborted. */
  predicate StartsAtMost(s: State, t: State, slot: Slot) {
    t.started == s.started ||
    (|t.started| == |s.started| + 1 && s.started <= t.started && t.started[|s.started|].slot == slot
     && slot.run !in s.aborted && slot.run !in s.canceled)
  }

  lemma LaunchStarts(s: State, slot: Slot, generation: nat)
    requires CanceledAborted(s) && slot in s.executions && slot in s.calls && Live(s.executions[slot])
    ensures StartsAtMost(s, Launch(s, slot, generation), slot)
  {
    hide StillBound;
  }

  lemma JudgeStarts(s: State, slot: Slot, decision: Decision, risk: nat, generation: nat, ok: bool)
    requires Inv(s, generation)
    ensures StartsAtMost(s, Judge(s, slot, decision, risk, generation, ok), slot)
  {
    hide GrantsOnce, StartsOnce, Bind, Launch;
    if InPhase(s, slot, Reviewing) && slot in s.calls {
      var expiresAt := Expiry(s.now, decision);
      var call := Bind(s.calls[slot], Review(decision, generation, expiresAt), risk, slot.step);
      LaunchStarts(
        s.(
          calls := s.calls[slot := call],
          executions := s.executions[slot := Execution(Reviewing, decision, expiresAt)]),
        slot, generation);
    }
  }

  lemma ResumeStarts(s: State, slot: Slot, generation: nat)
    requires Inv(s, generation)
    ensures StartsAtMost(s, Resume(s, slot, generation), slot)
  {
    hide GrantsOnce, StartsOnce;
  }

  function StartedSteps(s: State, run: RunId): set<nat> {
    set k | 0 <= k < |s.started| && s.started[k].slot.run == run :: s.started[k].slot.step
  }

  /** Commands of one run use different steps of its budget, so no run starts more than fifty. */
  lemma AtMostFiftyStart(trace: seq<Step>, generation: nat, run: RunId)
    ensures var s := After(trace, generation);
            && |StartedSteps(s, run)| <= MAX_STEPS
            && (forall j, k :: 0 <= j < k < |s.started| && s.started[j].slot.run == s.started[k].slot.run == run ==>
                  s.started[j].slot.step != s.started[k].slot.step)
  {
    Reachable(trace, generation);
    var s := After(trace, generation);
    hide GoodStart, GoodGrant, After;
    UpToSize(MAX_STEPS);
    forall n | n in StartedSteps(s, run) ensures n in UpTo(MAX_STEPS) {
      var k :| 0 <= k < |s.started| && s.started[k].slot.run == run && s.started[k].slot.step == n;
      assert Launched(s, s.started[k].slot);
    }
    SubsetSize(StartedSteps(s, run), UpTo(MAX_STEPS));
    forall j, k | 0 <= j < k < |s.started| && s.started[j].slot.run == run && s.started[k].slot.run == run
      ensures s.started[j].slot.step != s.started[k].slot.step
    {
      assert s.started[j].slot != s.started[k].slot;
    }
  }

  function UpTo(n: nat): set<nat> {
    if n == 0 then {} else UpTo(n - 1) + {n}
  }

  lemma {:induction false} UpToSize(n: nat)
    ensures |UpTo(n)| == n && forall k :: k in UpTo(n) <==> 1 <= k <= n
  {
    if n > 0 {
      UpToSize(n - 1);
    }
  }

  // ----- what was approved is what starts -----

  /** While nobody alters its hash, a decided call keeps it, and a started one had it. */
  ghost predicate HashKept(s: State) {
    && (forall j :: 0 <= j < |s.granted| && s.granted[j].approval.callId !in s.rehashed ==>
          var slot := s.granted[j].approval.callId;
          slot in s.calls && s.calls[slot].argsHash == s.granted[j].call.argsHash)
    && (forall j, k :: 0 <= j < |s.granted| && 0 <= k < |s.started| ==> StartedAsGranted(s, j, k))
  }

  predicate StartedAsGranted(s: State, j: nat, k: nat)
    requires j < |s.granted| && k < |s.started|
  {
    s.started[k].slot == s.granted[j].approval.callId && s.started[k].slot !in s.rehashed ==>
      s.started[k].call.argsHash == s.granted[j].call.argsHash
  }

  /** Nothing starts, nothing is approved, and decided calls keep their hashes. */
  ghost predicate Quiet(s: State, t: State) {
    && t.started == s.started && t.granted == s.granted && t.rehashed == s.rehashed
    && (forall slot :: slot in s.calls && Decided(s, slot) ==>
          slot in t.calls && t.calls[slot].argsHash == s.calls[slot].argsHash)
  }

  lemma QuietFail(s: State, slot: Slot)
    requires slot in s.executions
    ensures Quiet(s, Fail(s, slot))
  {
    hide FailRun, Decided, EndsCanceled;
    var call := if slot in s.calls then Some(s.calls[slot]) else None;
    if call.Some? && !CallOver(call.value.state) {
      FailRunExecutions(
        s.(calls := s.calls[slot := call.value.(state := if EndsCanceled(s, slot.run) then Canceled else Failed)]),
        slot.run);
    }
    FailRunExecutions(s, slot.run);
  }

  lemma QuietBegin(s: State, run: RunId)
    ensures Quiet(s, Begin(s, run))
  {
    hide FailRun, Decided;
    FailRunExecutions(s, run);
    if run in s.steps {
      FailRunExecutions(s.(steps := s.steps[run := s.steps[run] + 1]), run);
    }
  }

  lemma QuietPropose(s: State, slot: Slot, command: string, target: Terminal, generation: nat, ok: bool)
    ensures Quiet(s, Propose(s, slot, command, target, generation, ok))
  {
    if InPhase(s, slot, Preparing) && !ok {
      QuietFail(s, slot);
    }
  }

  lemma QuietConclude(s: State, slot: Slot, exitedWell: bool, threw: bool)
    ensures Quiet(s, Conclude(s, slot, exitedWell, threw))
  {
    if InPhase(s, slot, Started) {
      QuietFail(s, slot);
    }
  }

  /** An abort moves commands only. */
  lemma QuietAbort(s: State, run: RunId, reason: Reason)
    ensures var t := AbortRegistered(s, run, reason);
            && t.calls == s.calls && t.approvals == s.approvals && t.runs == s.runs
            && t.started == s.started && t.granted == s.granted && t.rehashed == s.rehashed
  {
  }

  lemma QuietSweep(s: State, id: Slot)
    ensures Quiet(s, Sweep(s, id))
  {
    hide AbortRegistered, Decided;
    if id in s.approvals && s.approvals[id].callId in s.calls {
      QuietAbort(SetVerdict(s, id, Expired), s.calls[s.approvals[id].callId].runId, ApprovalExpired);
    }
  }

  lemma QuietExpireDecided(s: State, id: Slot)
    requires id in s.approvals && s.approvals[id].callId in s.calls
    ensures Quiet(s, ExpireDecided(s, id))
  {
    hide AbortRegistered, Decided;
    QuietAbort(SetVerdict(s, id, Expired), s.calls[s.approvals[id].callId].runId, ApprovalExpired);
  }

  lemma QuietExpiry(s: State, slot: Slot)
    ensures Quiet(s, ExpiryTimer(s, slot))
  {
  }

  lemma QuietCancel(s: State, run: RunId)
    ensures Quiet(s, Cancel(s, run))
  {
    hide AbortRegistered, Decided;
    QuietAbort(s, run, Requested);
  }

  lemma QuietEnd(s: State, run: RunId, well: bool)
    ensures Quiet(s, EndRun(s, run, well))
  {
    hide Idle, Decided;
  }

  lemma QuietAdmit(s: State, run: RunId, terminal: Terminal)
    ensures Quiet(s, Admit(s, run, terminal))
  {
    hide Decided;
  }

  lemma QuietAskHuman(s: State, slot: Slot)
    requires slot in s.executions && slot in s.calls
    ensures Quiet(s, AskHuman(s, slot))
  {
  }

  lemma DecideStarts(s: State, id: Slot, approve: bool, argsHash: Option<Fingerprint>, generation: nat)
    ensures var t := Decide(s, id, approve, argsHash, generation);
            t.started == s.started
  {
    hide Cancel;
    if id in s.approvals && s.approvals[id].callId in s.calls {
      QuietCancel(s, s.calls[s.approvals[id].callId].runId);
    }
  }

  lemma QuietHashes(s: State, t: State, generation: nat)
    requires GrantsOnce(s, generation) && HashKept(s) && Quiet(s, t)
    ensures HashKept(t)
  {
    hide GoodGrant, Decided;
    forall j | 0 <= j < |s.granted| && s.granted[j].approval.callId !in t.rehashed
      ensures var slot := s.granted[j].approval.callId;
              slot in t.calls && t.calls[slot].argsHash == s.granted[j].call.argsHash
    {
      assert Decided(s, s.granted[j].approval.callId);
    }
    forall j, k | 0 <= j < |t.granted| && 0 <= k < |t.started| ensures StartedAsGranted(t, j, k) {
      assert StartedAsGranted(s, j, k);
    }
  }

  /** A command starts with the stored hash, which is the approved one unless it was altered. */
  lemma LaunchHashes(s: State, slot: Slot, generation: nat)
    requires GrantsOnce(s, generation) && HashKept(s) && slot in s.executions && slot in s.calls
    ensures HashKept(Launch(s, slot, generation))
  {
    hide GoodGrant;
    var t := Launch(s, slot, generation);
    if slot.run in s.aborted || !StillBound(s, slot, generation) {
      QuietFail(s, slot);
      QuietHashes(s, t, generation);
    } else {
      forall j, k | 0 <= j < |t.granted| && 0 <= k < |t.started| ensures StartedAsGranted(t, j, k) {
        assert k < |s.started| ==> StartedAsGranted(s, j, k);
      }
    }
  }

  lemma ReleaseHashes(s: State, id: Slot, generation: nat)
    requires Inv(s, generation) && HashKept(s)
    requires id in s.approvals && s.approvals[id].callId in s.calls && s.approvals[id].callId in s.waiters
    ensures HashKept(Release(s, id))
  {
    var callId := s.approvals[id].callId;
    var t := Release(s, id);
    hide GoodGrant, GoodStart, Counted, CanceledAborted;
    forall j, k | 0 <= j < |t.granted| && 0 <= k < |t.started| ensures StartedAsGranted(t, j, k) {
      if j < |s.granted| {
        assert StartedAsGranted(s, j, k);
      } else {
        assert Launched(s, s.started[k].slot) && InPhase(s, callId, Waiting);
      }
    }
  }

  lemma DecideHashes(s: State, id: Slot, approve: bool, argsHash: Option<Fingerprint>, generation: nat)
    requires Inv(s, generation) && HashKept(s)
    ensures HashKept(Decide(s, id, approve, argsHash, generation))
  {
    if id in s.approvals && s.approvals[id].callId in s.calls {
      var callId := s.approvals[id].callId;
      hide Inv, HashKept, Cancel, Release, ExpireDecided, Quiet, GrantsOnce;
      GrantsOf(s, generation);
      QuietExpireDecided(s, id);
      QuietCancel(s, s.calls[callId].runId);
      QuietHashes(s, Cancel(s, s.calls[callId].runId), generation);
      QuietHashes(s, ExpireDecided(s, id), generation);
      if callId in s.waiters {
        ReleaseHashes(s, id, generation);
      }
    }
  }

  lemma GrantsOf(s: State, generation: nat)
    requires Inv(s, generation)
    ensures GrantsOnce(s, generation)
  {
  }

  /** Binding a call that is still under review. */
  lemma BoundHashes(s: State, slot: Slot, call: Call, execution: Execution, generation: nat)
    requires Inv(s, generation) && HashKept(s) && InPhase(s, slot, Reviewing) && slot in s.calls
    requires call.runId == s.calls[slot].runId && execution.phase == Reviewing
    ensures var t := s.(calls := s.calls[slot := call], executions := s.executions[slot := execution]);
            GrantsOnce(t, generation) && HashKept(t)
  {
    GrantsOf(s, generation);
    hide Inv, HashKept, GrantsOnce;
    var stored := s.(calls := s.calls[slot := call]);
    var bound := stored.(executions := s.executions[slot := execution]);
    StoreKeeps(s, stored, generation);
    ReviewedKeeps(stored, slot, execution.decision, execution.expiresAt, generation);
    GrantsOf(bound, generation);
    QuietHashes(s, bound, generation);
  }

  lemma JudgeHashes(s: State, slot: Slot, decision: Decision, risk: nat, generation: nat, ok: bool)
    requires Inv(s, generation) && HashKept(s)
    ensures HashKept(Judge(s, slot, decision, risk, generation, ok))
  {
    hide Inv, HashKept, GrantsOnce, CommandHash, Fail, AskHuman, Launch, Quiet;
    GrantsOf(s, generation);
    if InPhase(s, slot, Reviewing) && slot in s.calls {
      var expiresAt := Expiry(s.now, decision);
      var call := Bind(s.calls[slot], Review(decision, generation, expiresAt), risk, slot.step);
      var execution := Execution(Reviewing, decision, expiresAt);
      var bound := s.(calls := s.calls[slot := call], executions := s.executions[slot := execution]);
      BoundHashes(s, slot, call, execution, generation);
      QuietFail(s, slot);
      QuietHashes(s, Fail(s, slot), generation);
      QuietFail(bound, slot);
      QuietHashes(bound, Fail(bound, slot), generation);
      QuietAskHuman(bound, slot);
      QuietHashes(bound, AskHuman(bound, slot), generation);
      LaunchHashes(bound, slot, generation);
    }
  }

  lemma AlterHashes(
    s: State, slot: Slot, fields: Fields, argsHash: Option<Fingerprint>, state: CallState, source: Option<Source>,
    generation: nat)
    requires Inv(s, generation) && HashKept(s)
    ensures HashKept(Next(s, AlterCall(slot, fields, argsHash, state, source), generation))
  {
    var t := Next(s, AlterCall(slot, fields, argsHash, state, source), generation);
    hide Inv;
    forall j, k | 0 <= j < |t.granted| && 0 <= k < |t.started| ensures StartedAsGranted(t, j, k) {
      assert StartedAsGranted(s, j, k);
    }
  }

  lemma ResumeHashes(s: State, slot: Slot, generation: nat)
    requires Inv(s, generation) && HashKept(s)
    ensures HashKept(Resume(s, slot, generation))
  {
    GrantsOf(s, generation);
    hide Inv, HashKept, GrantsOnce, Launch, Fail, Quiet;
    if slot in s.executions {
      QuietFail(s, slot);
      QuietHashes(s, Fail(s, slot), generation);
      if slot in s.calls {
        LaunchHashes(s, slot, generation);
      }
    }
  }

  lemma NextHashKept(s: State, step: Step, generation: nat)
    requires Inv(s, generation) && HashKept(s)
    ensures HashKept(Next(s, step, generation))
  {
    GrantsOf(s, generation);
    var t := Next(s, step, generation);
    hide Inv, HashKept, GrantsOnce, Judge, Resume, Fail, Cancel, Decide, Sweep, Propose, Begin, EndRun, ExpiryTimer,
      Conclude, Admit, AbortRegistered, Decided;
    match step {
      case JudgeCommand(slot, decision, risk, ok) => JudgeHashes(s, slot, decision, risk, generation, ok);
      case ResumeCommand(slot) => ResumeHashes(s, slot, generation);
      case DecideApproval(id, approve, argsHash) => DecideHashes(s, id, approve, argsHash, generation);
      case AlterCall(slot, fields, argsHash, state, source) =>
        AlterHashes(s, slot, fields, argsHash, state, source, generation);
      case BeginCommand(run) => QuietBegin(s, run); QuietHashes(s, t, generation);
      case ProposeCommand(slot, command, target, ok) =>
        QuietPropose(s, slot, command, target, generation, ok);
        QuietHashes(s, t, generation);
      case ConcludeCommand(slot, exitedWell, threw) =>
        QuietConclude(s, slot, exitedWell, threw);
        QuietHashes(s, t, generation);
      case SweepApproval(id) => QuietSweep(s, id); QuietHashes(s, t, generation);
      case FireExpiry(slot) => QuietExpiry(s, slot); QuietHashes(s, t, generation);
      case CancelRun(run) => QuietCancel(s, run); QuietHashes(s, t, generation);
      case FinishRun(run, well) => QuietEnd(s, run, well); QuietHashes(s, t, generation);
      case AdmitRun(run, terminal) => QuietAdmit(s, run, terminal); QuietHashes(s, t, generation);
      case AbortRun(run, reason) => QuietAbort(s, run, reason); QuietHashes(s, t, generation);
      case _ => QuietHashes(s, t, generation);
    }
  }

  lemma {:induction false} ReachableHashes(trace: seq<Step>, generation: nat)
    ensures HashKept(After(trace, generation))
  {
    if trace != [] {
      var init := trace[..|trace| - 1];
      ReachableHashes(init, generation);
      Reachable(init, generation);
      NextHashKept(After(init, generation), trace[|trace| - 1], generation);
    }
  }

  /**
   What a human approved is what starts: the same command, target, risk, review and step, unless the
   stored hash itself was altered behind the service's back.
   */
  lemma ApprovedIsStarted(trace: seq<Step>, generation: nat, j: nat, k: nat)
    requires j < |After(trace, generation).granted| && k < |After(trace, generation).started|
    requires var s := After(trace, generation);
             s.started[k].slot == s.granted[j].approval.callId && s.started[k].slot !in s.rehashed
    ensures var s := After(trace, generation);
            && s.started[k].call.fields == s.granted[j].call.fields
            && s.started[k].expiresAt == s.granted[j].approval.expiresAt
  {
    Reachable(trace, generation);
    ReachableHashes(trace, generation);
    var s := After(trace, generation);
    hide After, Launched, Decided, Counted, WaitersKnown, CanceledAborted;
    assert StartedAsGranted(s, j, k);
    assert GoodStart(s.started[k], generation) && GoodGrant(s.granted[j], generation);
  }
}
