/** The terminals that are at work: at most four, each with one run, and no run with two of them. */
module WorkTargets {
  import opened Common
  import opened ReviewedCommands

  const WORK_LIMIT := 4

  /** Every run under way has one terminal, and every terminal at work is that of one run. */
  ghost predicate Paired(registered: set<RunId>, targets: map<Terminal, RunId>) {
    && (forall t :: t in targets ==> targets[t] in registered)
    && (forall t, u :: t in targets && u in targets && targets[t] == targets[u] ==> t == u)
    && (forall run :: run in registered ==> AtWork(targets, run))
    && |registered| == |targets|
  }

  ghost predicate AtWork(targets: map<Terminal, RunId>, run: RunId) {
    exists t :: t in targets && targets[t] == run
  }

  ghost predicate Limited(s: State) {
    |s.workTargets| <= WORK_LIMIT && Paired(s.registered, s.workTargets) && s.registered <= s.runs.Keys
  }

  /** Runs may be added to the table of runs, and nothing else that counts here. */
  ghost predicate SameTargets(s: State, t: State) {
    t.workTargets == s.workTargets && t.registered == s.registered && s.runs.Keys <= t.runs.Keys
  }

  lemma SameLimited(s: State, t: State)
    requires Limited(s) && SameTargets(s, t)
    ensures Limited(t)
  {
  }

  lemma FailSame(s: State, slot: Slot)
    requires slot in s.executions
    ensures SameTargets(s, Fail(s, slot))
  {
  }

  lemma FailRunSame(s: State, run: RunId)
    ensures SameTargets(s, FailRun(s, run))
  {
  }

  lemma AbortSame(s: State, run: RunId, reason: Reason)
    ensures SameTargets(s, Abort(s, run, reason)) && SameTargets(s, AbortRegistered(s, run, reason))
  {
  }

  lemma CancelSame(s: State, run: RunId)
    ensures SameTargets(s, Cancel(s, run))
  {
    hide AbortRegistered;
    AbortSame(s, run, Requested);
  }

  lemma BeginSame(s: State, run: RunId)
    ensures SameTargets(s, Begin(s, run))
  {
    hide FailRun;
    FailRunSame(s, run);
    if run in s.steps {
      FailRunSame(s.(steps := s.steps[run := s.steps[run] + 1]), run);
    }
  }

  lemma ProposeSame(s: State, slot: Slot, command: string, target: Terminal, generation: nat, ok: bool)
    ensures SameTargets(s, Propose(s, slot, command, target, generation, ok))
  {
    hide Fail;
    if slot in s.executions {
      FailSame(s, slot);
    }
  }

  lemma LaunchSame(s: State, slot: Slot, generation: nat)
    requires slot in s.executions && slot in s.calls
    ensures SameTargets(s, Launch(s, slot, generation))
  {
    hide Fail, StillBound;
    FailSame(s, slot);
  }

  lemma AskSame(s: State, slot: Slot)
    requires slot in s.executions && slot in s.calls
    ensures SameTargets(s, AskHuman(s, slot))
  {
  }

  lemma JudgeSame(s: State, slot: Slot, decision: Decision, risk: nat, generation: nat, ok: bool)
    ensures SameTargets(s, Judge(s, slot, decision, risk, generation, ok))
  {
    hide Fail, AskHuman, Launch;
    if InPhase(s, slot, Reviewing) && slot in s.calls {
      FailSame(s, slot);
      var expiresAt := Expiry(s.now, decision);
      var call := Bind(s.calls[slot], Review(decision, generation, expiresAt), risk, slot.step);
      var bound := s.(
        calls := s.calls[slot := call],
        executions := s.executions[slot := Execution(Reviewing, decision, expiresAt)]);
      FailSame(bound, slot);
      AskSame(bound, slot);
      LaunchSame(bound, slot, generation);
    }
  }

  lemma ResumeSame(s: State, slot: Slot, generation: nat)
    ensures SameTargets(s, Resume(s, slot, generation))
  {
    hide Fail, Launch;
    if slot in s.executions {
      FailSame(s, slot);
      if slot in s.calls {
        LaunchSame(s, slot, generation);
      }
    }
  }

  lemma QuietSame(s: State, t: State)
    requires t == s.(now := t.now, approvals := t.approvals)
    ensures SameTargets(s, t)
  {
  }

  lemma AlterSame(
    s: State, slot: Slot, fields: Fields, argsHash: Option<Fingerprint>, state: CallState, source: Option<Source>)
    ensures SameTargets(s, AlterStored(s, slot, fields, argsHash, state, source))
  {
  }

  lemma ConcludeSame(s: State, slot: Slot, exitedWell: bool, threw: bool)
    ensures SameTargets(s, Conclude(s, slot, exitedWell, threw))
  {
    hide Fail;
    if slot in s.executions {
      FailSame(s, slot);
    }
  }

  lemma ExpireSame(s: State, id: Slot, run: RunId)
    requires id in s.approvals
    ensures SameTargets(s, AbortRegistered(SetVerdict(s, id, Expired), run, ApprovalExpired))
    ensures SameTargets(s, Abort(SetVerdict(s, id, Expired), run, ApprovalExpired))
  {
    hide AbortRegistered, Abort;
    AbortSame(SetVerdict(s, id, Expired), run, ApprovalExpired);
  }

  lemma SweepSame(s: State, id: Slot)
    ensures SameTargets(s, Sweep(s, id))
  {
    hide AbortRegistered, SetVerdict, CallOver, RunOver;
    if id in s.approvals && s.approvals[id].callId in s.calls {
      ExpireSame(s, id, s.calls[s.approvals[id].callId].runId);
      QuietAbort(SetVerdict(s, id, Expired), s.calls[s.approvals[id].callId].runId, ApprovalExpired);
      VerdictCalls(s, id);
    }
  }

  lemma VerdictCalls(s: State, id: Slot)
    requires id in s.approvals
    ensures SetVerdict(s, id, Expired).calls == s.calls
  {
  }

  lemma DecideSame(s: State, id: Slot, approve: bool, argsHash: Option<Fingerprint>, generation: nat)
    ensures SameTargets(s, Decide(s, id, approve, argsHash, generation))
  {
    hide Cancel, ExpireDecided, Release;
    if id in s.approvals && s.approvals[id].callId in s.calls {
      CancelSame(s, s.calls[s.approvals[id].callId].runId);
      ExpireDecidedSame(s, id);
      ReleaseSame(s, id);
    }
  }

  lemma ExpireDecidedSame(s: State, id: Slot)
    requires id in s.approvals && s.approvals[id].callId in s.calls
    ensures SameTargets(s, ExpireDecided(s, id))
  {
    hide AbortRegistered, SetVerdict;
    ExpireSame(s, id, s.calls[s.approvals[id].callId].runId);
    QuietAbort(SetVerdict(s, id, Expired), s.calls[s.approvals[id].callId].runId, ApprovalExpired);
    VerdictCalls(s, id);
  }

  lemma ReleaseSame(s: State, id: Slot)
    requires id in s.approvals && s.approvals[id].callId in s.calls
    ensures SameTargets(s, Release(s, id))
  {
  }

  lemma TimerSame(s: State, slot: Slot)
    ensures SameTargets(s, ExpiryTimer(s, slot))
  {
    hide Abort, SetVerdict;
    if slot in s.approvals {
      ExpireSame(s, slot, slot.run);
    }
  }

  // ----- the two steps that change the table -----

  lemma PairAdded(registered: set<RunId>, targets: map<Terminal, RunId>, run: RunId, terminal: Terminal)
    requires Paired(registered, targets) && run !in registered && terminal !in targets
    ensures Paired(registered + {run}, targets[terminal := run])
    ensures |targets[terminal := run]| == |targets| + 1
  {
    var added := targets[terminal := run];
    assert |added| == |targets| + 1 by {
      assert added.Keys == targets.Keys + {terminal};
      assert |added.Keys| == |added| && |targets.Keys| == |targets|;
    }
    forall t | t in added ensures added[t] == if t == terminal then run else targets[t] {
    }
    forall other | other in registered + {run} ensures AtWork(added, other) {
      if other == run {
        assert added[terminal] == run;
      } else {
        assert AtWork(targets, other);
        var t :| t in targets && targets[t] == other;
        assert t in added && added[t] == other;
      }
    }
    hide AtWork;
  }

  lemma PairRemoved(registered: set<RunId>, targets: map<Terminal, RunId>, run: RunId, rest: map<Terminal, RunId>)
    requires Paired(registered, targets) && run in registered
    requires rest == map t | t in targets && targets[t] != run :: targets[t]
    ensures Paired(registered - {run}, rest) && |rest| == |targets| - 1
  {
    assert AtWork(targets, run);
    var terminal :| terminal in targets && targets[terminal] == run;
    assert rest.Keys == targets.Keys - {terminal};
    assert |rest.Keys| == |rest| && |targets.Keys| == |targets|;
    forall other | other in registered - {run} ensures AtWork(rest, other) {
      assert AtWork(targets, other);
      var t :| t in targets && targets[t] == other;
      assert t in rest && rest[t] == other;
    }
  }

  lemma AdmitLimited(s: State, run: RunId, terminal: Terminal)
    requires Limited(s)
    ensures Limited(Admit(s, run, terminal))
  {
    if Admit(s, run, terminal) != s {
      PairAdded(s.registered, s.workTargets, run, terminal);
      hide Paired;
    }
  }

  lemma EndLimited(s: State, run: RunId, well: bool)
    requires Limited(s)
    ensures Limited(EndRun(s, run, well))
  {
    hide Idle, EndsCanceled, RunOver, Paired;
    var t := EndRun(s, run, well);
    if t.registered != s.registered {
      PairRemoved(s.registered, s.workTargets, run, t.workTargets);
    }
  }

  lemma NextLimited(s: State, step: Step, generation: nat)
    requires Limited(s)
    ensures Limited(Next(s, step, generation))
  {
    hide Limited, SameTargets, Begin, Propose, Judge, Resume, Conclude, Decide, Sweep, ExpiryTimer, Cancel, EndRun;
    hide Admit, AbortRegistered, AlterStored;
    var t := Next(s, step, generation);
    match step {
      case AdmitRun(run, terminal) => AdmitLimited(s, run, terminal);
      case FinishRun(run, well) => EndLimited(s, run, well);
      case BeginCommand(run) => BeginSame(s, run); SameLimited(s, t);
      case ProposeCommand(slot, command, target, ok) =>
        ProposeSame(s, slot, command, target, generation, ok); SameLimited(s, t);
      case JudgeCommand(slot, decision, risk, ok) =>
        JudgeSame(s, slot, decision, risk, generation, ok); SameLimited(s, t);
      case ResumeCommand(slot) => ResumeSame(s, slot, generation); SameLimited(s, t);
      case ConcludeCommand(slot, exitedWell, threw) => ConcludeSame(s, slot, exitedWell, threw); SameLimited(s, t);
      case DecideApproval(id, approve, argsHash) => DecideSame(s, id, approve, argsHash, generation); SameLimited(s, t);
      case SweepApproval(id) => SweepSame(s, id); SameLimited(s, t);
      case FireExpiry(slot) => TimerSame(s, slot); SameLimited(s, t);
      case CancelRun(run) => CancelSame(s, run); SameLimited(s, t);
      case AbortRun(run, reason) => AbortSame(s, run, reason); SameLimited(s, t);
      case AlterCall(slot, fields, argsHash, state, source) =>
        AlterSame(s, slot, fields, argsHash, state, source); SameLimited(s, t);
      case Tick(elapsed) => QuietSame(s, t); SameLimited(s, t);
      case AlterApproval(id, approval) => QuietSame(s, t); SameLimited(s, t);
    }
  }

  /** Over every interleaving at most four terminals are at work, each with a run of its own that is not over. */
  lemma {:induction false} AlwaysLimited(trace: seq<Step>, generation: nat)
    ensures Limited(After(trace, generation))
    decreases |trace|
  {
    hide Next;
    if trace != [] {
      AlwaysLimited(trace[..|trace| - 1], generation);
      NextLimited(After(trace[..|trace| - 1], generation), trace[|trace| - 1], generation);
    }
  }

  /** The end of a run frees its terminal and no other. */
  lemma FreedByItsRun(s: State, run: RunId, well: bool, terminal: Terminal)
    requires Limited(s) && terminal in s.workTargets && s.workTargets[terminal] == run
    requires run in s.aborted || Idle(s, run)
    ensures var t := EndRun(s, run, well);
            && t.workTargets.Keys == s.workTargets.Keys - {terminal}
            && |t.workTargets| == |s.workTargets| - 1
  {
    hide Idle, EndsCanceled, RunOver;
    var t := EndRun(s, run, well);
    assert t.workTargets.Keys == s.workTargets.Keys - {terminal};
    assert |t.workTargets.Keys| == |t.workTargets| && |s.workTargets.Keys| == |s.workTargets|;
  }

  /**
   A run is admitted exactly if it is new, its terminal is free, and fewer than four runs are under way. It then
   goes on from step zero; otherwise nothing changes.
   */
  lemma AdmittedExactly(trace: seq<Step>, run: RunId, terminal: Terminal, generation: nat)
    ensures var s := After(trace, generation);
            var t := Next(s, AdmitRun(run, terminal), generation);
            if run !in s.runs && |s.registered| < 4 && terminal !in s.workTargets then
              && t.registered == s.registered + {run} && t.runs == s.runs[run := Active]
              && t.steps == s.steps[run := 0] && t.workTargets == s.workTargets[terminal := run]
            else t == s
  {
    AlwaysLimited(trace, generation);
    assert |After(trace, generation).registered| == |After(trace, generation).workTargets|;
    hide After, Limited;
  }
}
